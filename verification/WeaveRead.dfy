/** The readers: every one is a loop over the iterator. */
module WeaveRead {
  import opened Common
  import opened TopoOrder
  import opened Rga
  import opened CfoldModel
  import opened CfoldFold
  import opened CfoldHistory
  import opened Weave
  import opened WeaveRep
  import opened WeaveFacts
  import opened WalkOrder
  import opened Siblings
  import opened WeaveIter

  lemma {:induction false} TextConcat(s: State, a: seq<Tid>, b: seq<Tid>)
    ensures Text(s, a + b) == Text(s, a) + Text(s, b)
  {
    if a == [] {
      assert a + b == b;
    } else {
      assert (a + b)[1..] == a[1..] + b;
      TextConcat(s, a[1..], b);
    }
  }

  lemma TextSnoc(s: State, d: seq<Tid>, t: Tid)
    ensures Text(s, d + [t]) == Text(s, d) + Bytes(s, t)
  {
    TextConcat(s, d, [t]);
    assert Text(s, [t]) == Bytes(s, t) + Text(s, []);
  }

  /** A fresh walk owes the whole document of the walked scopes together. */
  lemma FreshWalk(v: View, w: Weave, scs: seq<Scope>)
    requires Views(v, w, scs)
    ensures Lists(v, Nodes(v, w, scs))
    ensures Union(v.sets) <= v.s.Keys && IsDag(Graph(v.s))
    ensures Owed(Nodes(v, w, scs), AnchorMap(v.s), -1, |Nodes(v, w, scs)|) == Doc(v.s, Union(v.sets))
  {
    NodesList(v, w, scs);
  }

  lemma UnionOne(a: set<nat>)
    ensures Union([a]) == a
  {
    assert Union([a]) == Union([]) + a;
  }

  lemma UnionTwo(a: set<nat>, b: set<nat>)
    ensures Union([a, b]) == a + b
  {
    assert [a, b][..1] == [a];
    UnionOne(a);
  }

  lemma TokenBytes(v: View, w: Weave, t: Tid, tok: WalkTok)
    requires Represents(w, v.s, v.ids) && Describes(v, t, tok)
    ensures tok.off <= tok.end <= |w.body| && w.body[tok.off..tok.end] == Bytes(v.s, t)
    ensures |tok.alive| == |v.sets|
    ensures forall k | 0 <= k < |v.sets| :: tok.alive[k] == (t in Alive(v.s, v.sets[k]))
  {
    StoredToken(w, v.s, v.ids, t);
  }

  lemma MoveOne(seen: seq<Tid>, t: Tid, rest: seq<Tid>)
    ensures seen + ([t] + rest) == seen + [t] + rest
  {
  }

  ghost predicate OneView(v: View, w: Weave, sc: Scope, a: set<nat>) {
    Views(v, w, [sc]) && v.sets == [a]
  }

  lemma OneViewFacts(v: View, w: Weave, sc: Scope, a: set<nat>)
    requires OneView(v, w, sc, a)
    ensures Represents(w, v.s, v.ids) && a <= v.s.Keys && IsDag(Graph(v.s)) && |v.sets| == 1 && v.sets[0] == a
    ensures Lists(v, Nodes(v, w, [sc]))
    ensures Owed(Nodes(v, w, [sc]), AnchorMap(v.s), -1, |Nodes(v, w, [sc])|) == Doc(v.s, a)
  {
    FreshWalk(v, w, [sc]);
    UnionOne(a);
  }

  /** The text a scope shows. */
  method RenderScope(w: Weave, sc: Scope, ghost v: View, ghost a: set<nat>) returns (st: Status, out: seq<Byte>)
    requires OneView(v, w, sc, a)
    ensures a <= v.s.Keys && IsDag(Graph(v.s))
    ensures st == OK && out == Render(v.s, a)
  {
    hide OneView, Describes, Lists, Nodes, Owed, Doc, Text, Filter, Alive, Represents, Rest;
    OneViewFacts(v, w, sc, a);
    var it := new Iter(w);
    out := [];
    ghost var seen: seq<Tid> := [];
    RenderStart(v, w, sc, a, it);
    while true
      invariant it.Valid(v, w, [sc]) && fresh(it) && fresh(it.rank) && fresh(it.stk)
      invariant seen + it.Remaining(v, w, [sc]) == Doc(v.s, a)
      invariant out == Text(v.s, Filter(seen, Alive(v.s, a)))
      decreases |it.Remaining(v, w, [sc])|
    {
      var got: bool;
      var tok: WalkTok;
      ghost var t: Tid;
      st, got, tok, t := it.Next(w, [sc], v);
      if !got {
        break;
      }
      TokenBytes(v, w, t, tok);
      FilterSnoc(seen, t, Alive(v.s, a));
      if tok.alive[0] {
        TextSnoc(v.s, Filter(seen, Alive(v.s, a)), t);
        out := out + w.body[tok.off..tok.end];
      }
      MoveOne(seen, t, it.Remaining(v, w, [sc]));
      seen := seen + [t];
    }
    assert seen + [] == seen;
  }

  lemma RenderStart(v: View, w: Weave, sc: Scope, a: set<nat>, it: Iter)
    requires OneView(v, w, sc, a) && it.phase == FRESH && it.depth == 0
    requires it.rank.Length == |w.cmts| && it.stk.Length == |w.idx| + 1
    ensures a <= v.s.Keys && IsDag(Graph(v.s))
    ensures it.Valid(v, w, [sc]) && [] + it.Remaining(v, w, [sc]) == Doc(v.s, a)
    ensures Text(v.s, Filter([], Alive(v.s, a))) == []
  {
    OneViewFacts(v, w, sc, a);
  }

  /** Every walked token, described. */
  ghost predicate AllDescribed(v: View, ts: seq<Tid>, toks: seq<WalkTok>) {
    |toks| == |ts| && forall i | 0 <= i < |ts| :: Describes(v, ts[i], toks[i])
  }

  lemma WalkStart(v: View, w: Weave, scs: seq<Scope>, it: Iter)
    requires Views(v, w, scs) && it.phase == FRESH && it.depth == 0
    requires it.rank.Length == |w.cmts| && it.stk.Length == |w.idx| + 1
    ensures Union(v.sets) <= v.s.Keys && IsDag(Graph(v.s))
    ensures it.Valid(v, w, scs) && [] + it.Remaining(v, w, scs) == Doc(v.s, Union(v.sets))
  {
    FreshWalk(v, w, scs);
  }

  /** The walk at any number of scopes: the document of the scopes together, each token once, in order. */
  method WalkAll(w: Weave, scs: seq<Scope>, ghost v: View) returns (st: Status, toks: seq<WalkTok>)
    requires Views(v, w, scs)
    ensures Union(v.sets) <= v.s.Keys && IsDag(Graph(v.s))
    ensures st == OK && AllDescribed(v, Doc(v.s, Union(v.sets)), toks)
  {
    hide Views, Describes, Lists, Nodes, Owed, Doc, Represents, Rest;
    var it := new Iter(w);
    WalkStart(v, w, scs, it);
    toks := [];
    ghost var seen: seq<Tid> := [];
    while true
      invariant it.Valid(v, w, scs) && fresh(it) && fresh(it.rank) && fresh(it.stk)
      invariant seen + it.Remaining(v, w, scs) == Doc(v.s, Union(v.sets))
      invariant AllDescribed(v, seen, toks)
      decreases |it.Remaining(v, w, scs)|
    {
      var got: bool;
      var tok: WalkTok;
      ghost var t: Tid;
      st, got, tok, t := it.Next(w, scs, v);
      if !got {
        break;
      }
      MoveOne(seen, t, it.Remaining(v, w, scs));
      seen, toks := seen + [t], toks + [tok];
    }
    assert seen + [] == seen;
  }

  /** A walk lists exactly the tokens present in some scope, each once. */
  lemma WalkCovers(v: View, w: Weave, scs: seq<Scope>)
    requires Views(v, w, scs)
    ensures Union(v.sets) <= v.s.Keys && IsDag(Graph(v.s))
    ensures NoDup(Doc(v.s, Union(v.sets)))
    ensures forall t :: t in Doc(v.s, Union(v.sets)) <==> Has(v.s, t) && InSome(v.sets, t.cid)
  {
    UnionClosed(v, w, scs);
    UnionElements(v.sets);
    DocElements(v.s, Union(v.sets));
    forall t
      ensures t in Doc(v.s, Union(v.sets)) <==> Has(v.s, t) && InSome(v.sets, t.cid)
    {
      assert t in Tokens(v.s, Union(v.sets)) <==> Has(v.s, t) && t.cid in Union(v.sets);
    }
  }

  // ---------- the writer's baseline ----------

  ghost predicate Offsets(s: State, ids: seq<nat>, d: seq<Tid>, offs: seq<nat>) {
    |offs| == |d| && forall i | 0 <= i < |d| :: OffsetAt(s, ids, d[i], offs[i])
  }

  ghost predicate OffsetAt(s: State, ids: seq<nat>, t: Tid, off: nat) {
    Stored(s, ids, t) && off == Off(s, ids, t)
  }

  lemma {:induction false} TokensOfSnoc(s: State, d: seq<Tid>, t: Tid)
    ensures TokensOf(s, d + [t]) == TokensOf(s, d) + [Tok(s, t)]
  {
    if d == [] {
      assert [] + [t] == [t] && TokensOf(s, [t][1..]) == [];
    } else {
      assert (d + [t])[1..] == d[1..] + [t];
      TokensOfSnoc(s, d[1..], t);
    }
  }

  lemma OffsetsSnoc(s: State, ids: seq<nat>, d: seq<Tid>, offs: seq<nat>, t: Tid, off: nat)
    requires Offsets(s, ids, d, offs) && OffsetAt(s, ids, t, off)
    ensures Offsets(s, ids, d + [t], offs + [off])
  {
  }

  lemma TokenIs(v: View, w: Weave, t: Tid, tok: WalkTok)
    requires Represents(w, v.s, v.ids) && Describes(v, t, tok)
    ensures tok.off <= tok.end <= |w.body|
    ensures Token(tok.tag, w.body[tok.off..tok.end]) == Tok(v.s, t)
    ensures OffsetAt(v.s, v.ids, t, tok.off)
  {
    StoredToken(w, v.s, v.ids, t);
  }

  /** Every token a scope shows, in document order, with the offset naming it. */
  method Baseline(w: Weave, sc: Scope, ghost v: View, ghost a: set<nat>)
      returns (st: Status, offs: seq<nat>, toks: seq<Token>)
    requires OneView(v, w, sc, a)
    ensures a <= v.s.Keys && IsDag(Graph(v.s))
    ensures st == OK && toks == TokensOf(v.s, Visible(v.s, a)) && Offsets(v.s, v.ids, Visible(v.s, a), offs)
  {
    hide OneView, Describes, Lists, Nodes, Owed, Doc, TokensOf, Offsets, OffsetAt, Filter, Alive, Represents, Rest, Tok;
    OneViewFacts(v, w, sc, a);
    var it := new Iter(w);
    offs, toks := [], [];
    ghost var seen: seq<Tid> := [];
    RenderStart(v, w, sc, a, it);
    BaselineStart(v);
    FilterNone<Tid>([], Alive(v.s, a));
    while true
      invariant it.Valid(v, w, [sc]) && fresh(it) && fresh(it.rank) && fresh(it.stk)
      invariant seen + it.Remaining(v, w, [sc]) == Doc(v.s, a)
      invariant toks == TokensOf(v.s, Filter(seen, Alive(v.s, a)))
      invariant Offsets(v.s, v.ids, Filter(seen, Alive(v.s, a)), offs)
      decreases |it.Remaining(v, w, [sc])|
    {
      var got: bool;
      var tok: WalkTok;
      ghost var t: Tid;
      st, got, tok, t := it.Next(w, [sc], v);
      if !got {
        break;
      }
      TokenBytes(v, w, t, tok);
      TokenIs(v, w, t, tok);
      FilterSnoc(seen, t, Alive(v.s, a));
      if tok.alive[0] {
        TokensOfSnoc(v.s, Filter(seen, Alive(v.s, a)), t);
        OffsetsSnoc(v.s, v.ids, Filter(seen, Alive(v.s, a)), offs, t, tok.off);
        offs := offs + [tok.off];
        toks := toks + [Token(tok.tag, w.body[tok.off..tok.end])];
      }
      MoveOne(seen, t, it.Remaining(v, w, [sc]));
      seen := seen + [t];
    }
    assert seen + [] == seen;
  }

  lemma BaselineStart(v: View)
    ensures TokensOf(v.s, []) == [] && Offsets(v.s, v.ids, [], [])
  {
  }

  // ---------- produce ----------

  /** The materialized length recorded for each commit is the length of what it shows. */
  ghost predicate Recorded(w: Weave, s: State, ids: seq<nat>) {
    && Represents(w, s, ids)
    && forall i {:trigger RecordedAt(w, s, ids, i)} | 0 <= i < |ids| :: RecordedAt(w, s, ids, i)
  }

  ghost function SeenBy(s: State, c: nat): set<nat>
    requires c in s
  {
    s[c].anc + {c}
  }

  ghost predicate RecordedAt(w: Weave, s: State, ids: seq<nat>, i: nat)
    requires Represents(w, s, ids) && i < |ids|
  {
    && ids[i] in s && IsDag(Graph(s)) && SeenBy(s, ids[i]) <= s.Keys
    && w.cmts[i].plen == |Render(s, SeenBy(s, ids[i]))|
  }

  lemma CommitView(w: Weave, s: State, ids: seq<nat>, c: nat)
    requires Represents(w, s, ids) && c < |w.cmts|
    ensures c < |ids| && IgnIn(w, w.cmts[c]) && ids[c] in s && SeenBy(s, ids[c]) <= s.Keys && IsDag(Graph(s))
    ensures OneView(View(s, ids, [SeenBy(s, ids[c])]), w, ScopeOf(w, c), SeenBy(s, ids[c]))
  {
    CommitSees(w, s, ids, c);
  }

  /** The file as commit `c` saw it: always found, never torn, and of the recorded length. */
  method Produce(w: Weave, c: nat, ghost s: State, ghost ids: seq<nat>) returns (st: Status, out: seq<Byte>)
    requires Recorded(w, s, ids)
    ensures c < |ids| ==> ids[c] in s && SeenBy(s, ids[c]) <= s.Keys && IsDag(Graph(s))
    ensures st == if c < |ids| then OK else NOCM
    ensures c < |ids| ==> out == Render(s, SeenBy(s, ids[c]))
  {
    out := [];
    if c >= |w.cmts| {
      return NOCM, out;
    }
    CommitView(w, s, ids, c);
    st, out := RenderScope(w, ScopeOf(w, c), View(s, ids, [SeenBy(s, ids[c])]), SeenBy(s, ids[c]));
    if st != OK {
      return;
    }
    assert RecordedAt(w, s, ids, c);
    if |out| != w.cmts[c].plen {
      st := PLEN;
      return;
    }
  }

  /** The last-folded commit's view. */
  method ProduceLast(w: Weave, ghost s: State, ghost ids: seq<nat>) returns (st: Status, out: seq<Byte>)
    requires Recorded(w, s, ids)
    ensures ids != [] ==> ids[|ids| - 1] in s && SeenBy(s, ids[|ids| - 1]) <= s.Keys && IsDag(Graph(s))
    ensures st == OK && out == if ids == [] then [] else Render(s, SeenBy(s, ids[|ids| - 1]))
  {
    out := [];
    if |w.cmts| == 0 {
      return OK, out;
    }
    st, out := Produce(w, |w.cmts| - 1, s, ids);
  }

  /** Commit id to build index. */
  method FindCommit(w: Weave, id: nat, ghost s: State, ghost ids: seq<nat>) returns (st: Status, i: nat)
    requires Represents(w, s, ids)
    ensures st == if id in ids then OK else NOCM
    ensures st == OK ==> i < |ids| && ids[i] == id && i == Pos(ids, id)
  {
    i := 0;
    while i < |w.cmts|
      invariant i <= |w.cmts| && id !in ids[..i]
    {
      assert RepCommit(w, s, ids, i);
      if w.cmts[i].id == id {
        PosUnique(ids, i);
        return OK, i;
      }
      i := i + 1;
    }
    assert ids[..i] == ids;
    st := NOCM;
  }

  // ---------- the two-commit walk ----------

  /** Decoded tokens: the text, cumulative ends, and one class each: inserted, deleted or both. */
  datatype Class = InsertedIn | DeletedIn | Context

  datatype Decoded = Decoded(text: seq<Byte>, end: seq<nat>, cls: seq<Class>)

  ghost function ClassOf(from: set<Tid>, to: set<Tid>, t: Tid): Class {
    if t in to && t !in from then InsertedIn
    else if t in from && t !in to then DeletedIn
    else Context
  }

  /** `d` decodes exactly the tokens `ts`, in order. */
  ghost predicate Decodes(s: State, from: set<Tid>, to: set<Tid>, ts: seq<Tid>, d: Decoded) {
    && d.text == Text(s, ts)
    && |d.end| == |d.cls| == |ts|
    && (forall i | 0 <= i < |ts| :: d.cls[i] == ClassOf(from, to, ts[i]))
    && (forall i {:trigger EndAt(s, ts, d, i)} | 0 <= i < |ts| :: EndAt(s, ts, d, i))
  }

  ghost predicate EndAt(s: State, ts: seq<Tid>, d: Decoded, i: nat)
    requires i < |ts| && |d.end| == |ts|
  {
    d.end[i] == |Text(s, ts[..i + 1])|
  }

  lemma DecodeStep(s: State, from: set<Tid>, to: set<Tid>, ts: seq<Tid>, d: Decoded, t: Tid, cls: Class)
    requires Decodes(s, from, to, ts, d) && cls == ClassOf(from, to, t)
    ensures var text := d.text + Bytes(s, t);
      Decodes(s, from, to, ts + [t], Decoded(text, d.end + [|text|], d.cls + [cls]))
  {
    TextSnoc(s, ts, t);
    var ts', text := ts + [t], d.text + Bytes(s, t);
    var d' := Decoded(text, d.end + [|text|], d.cls + [cls]);
    forall i | 0 <= i < |ts'|
      ensures EndAt(s, ts', d', i)
    {
      if i < |ts| {
        assert EndAt(s, ts, d, i);
        assert ts'[..i + 1] == ts[..i + 1];
      } else {
        assert ts'[..i + 1] == ts';
      }
    }
  }

  ghost predicate TwoViews(v: View, w: Weave, sf: Scope, st: Scope, a: set<nat>, b: set<nat>) {
    Views(v, w, [sf, st]) && v.sets == [a, b]
  }

  lemma TwoViewsFacts(v: View, w: Weave, sf: Scope, st: Scope, a: set<nat>, b: set<nat>)
    requires TwoViews(v, w, sf, st, a, b)
    ensures Represents(w, v.s, v.ids) && a + b <= v.s.Keys && IsDag(Graph(v.s))
    ensures |v.sets| == 2 && v.sets[0] == a && v.sets[1] == b
    ensures Lists(v, Nodes(v, w, [sf, st]))
    ensures Owed(Nodes(v, w, [sf, st]), AnchorMap(v.s), -1, |Nodes(v, w, [sf, st])|) == Doc(v.s, a + b)
  {
    FreshWalk(v, w, [sf, st]);
    UnionTwo(a, b);
  }

  lemma DecodeStart(v: View, w: Weave, sf: Scope, st: Scope, a: set<nat>, b: set<nat>, it: Iter)
    requires TwoViews(v, w, sf, st, a, b) && it.phase == FRESH && it.depth == 0
    requires it.rank.Length == |w.cmts| && it.stk.Length == |w.idx| + 1
    ensures a + b <= v.s.Keys && IsDag(Graph(v.s))
    ensures it.Valid(v, w, [sf, st]) && [] + it.Remaining(v, w, [sf, st]) == Doc(v.s, a + b)
    ensures var from, to := Alive(v.s, a), Alive(v.s, b);
      Decodes(v.s, from, to, Filter([], from + to), Decoded([], [], []))
  {
    TwoViewsFacts(v, w, sf, st, a, b);
  }

  /** Both commits walked at once: the tokens alive in either, classified. */
  method DecodeScopes(w: Weave, sf: Scope, sd: Scope, ghost v: View, ghost a: set<nat>, ghost b: set<nat>)
      returns (st: Status, d: Decoded)
    requires TwoViews(v, w, sf, sd, a, b)
    ensures a + b <= v.s.Keys && IsDag(Graph(v.s)) && st == OK
    ensures var from, to := Alive(v.s, a), Alive(v.s, b);
      Decodes(v.s, from, to, Filter(Doc(v.s, a + b), from + to), d)
  {
    hide TwoViews, Describes, Lists, Nodes, Owed, Doc, Decodes, Filter, Alive, Represents, Rest, Text;
    TwoViewsFacts(v, w, sf, sd, a, b);
    var it := new Iter(w);
    d := Decoded([], [], []);
    ghost var seen: seq<Tid> := [];
    ghost var from, to := Alive(v.s, a), Alive(v.s, b);
    DecodeStart(v, w, sf, sd, a, b, it);
    while true
      invariant it.Valid(v, w, [sf, sd]) && fresh(it) && fresh(it.rank) && fresh(it.stk)
      invariant seen + it.Remaining(v, w, [sf, sd]) == Doc(v.s, a + b)
      invariant Decodes(v.s, from, to, Filter(seen, from + to), d)
      decreases |it.Remaining(v, w, [sf, sd])|
    {
      var got: bool;
      var tok: WalkTok;
      ghost var t: Tid;
      st, got, tok, t := it.Next(w, [sf, sd], v);
      if !got {
        break;
      }
      TokenBytes(v, w, t, tok);
      FilterSnoc(seen, t, from + to);
      var af, at := tok.alive[0], tok.alive[1];
      if af || at {
        var cls := if at && !af then InsertedIn else if af && !at then DeletedIn else Context;
        DecodeStep(v.s, from, to, Filter(seen, from + to), d, t, cls);
        var text := d.text + w.body[tok.off..tok.end];
        d := Decoded(text, d.end + [|text|], d.cls + [cls]);
      }
      MoveOne(seen, t, it.Remaining(v, w, [sf, sd]));
      seen := seen + [t];
    }
    assert seen + [] == seen;
  }

  // ---------- projecting the two-commit walk ----------

  /** Where token `i` of the decoded text starts. */
  function StartAt(d: Decoded, i: nat): nat
    requires i <= |d.end|
  {
    if i == 0 then 0 else d.end[i - 1]
  }

  function Piece(d: Decoded, i: nat): seq<Byte>
    requires i < |d.end|
  {
    var lo, hi := StartAt(d, i), d.end[i];
    if lo <= hi <= |d.text| then d.text[lo..hi] else []
  }

  /** The first `n` decoded tokens with one class dropped. */
  ghost function Side(d: Decoded, drop: Class, n: nat): seq<Byte>
    requires n <= |d.end| == |d.cls|
  {
    if n == 0 then []
    else Side(d, drop, n - 1) + if d.cls[n - 1] == drop then [] else Piece(d, n - 1)
  }

  lemma PieceIs(s: State, from: set<Tid>, to: set<Tid>, ts: seq<Tid>, d: Decoded, i: nat)
    requires Decodes(s, from, to, ts, d) && i < |ts|
    ensures Piece(d, i) == Bytes(s, ts[i])
  {
    var pre, post := ts[..i], ts[i + 1..];
    assert ts == pre + [ts[i]] + post;
    assert ts[..i + 1] == pre + [ts[i]];
    TextConcat(s, pre + [ts[i]], post);
    TextSnoc(s, pre, ts[i]);
    assert EndAt(s, ts, d, i);
    if i > 0 {
      assert EndAt(s, ts, d, i - 1);
      assert ts[..i - 1 + 1] == pre;
    }
  }

  lemma Take(ts: seq<Tid>, n: nat)
    requires 0 < n <= |ts|
    ensures ts[..n] == ts[..n - 1] + [ts[n - 1]] && ts[n - 1] in ts
  {
  }

  lemma SideNone(s: State, ts: seq<Tid>, keep: set<Tid>)
    ensures Text(s, Filter(ts[..0], keep)) == []
  {
  }

  lemma {:induction false} SideIs(s: State, from: set<Tid>, to: set<Tid>, ts: seq<Tid>, d: Decoded, n: nat)
    requires Decodes(s, from, to, ts, d) && n <= |ts| && forall t | t in ts :: t in from || t in to
    ensures |d.end| == |d.cls| == |ts|
    ensures Side(d, InsertedIn, n) == Text(s, Filter(ts[..n], from))
    ensures Side(d, DeletedIn, n) == Text(s, Filter(ts[..n], to))
  {
    hide Filter, Text, Piece, EndAt;
    if n == 0 {
      SideNone(s, ts, from);
      SideNone(s, ts, to);
    } else {
      var t := ts[n - 1];
      SideIs(s, from, to, ts, d, n - 1);
      PieceIs(s, from, to, ts, d, n - 1);
      Take(ts, n);
      FilterSnoc(ts[..n - 1], t, from);
      FilterSnoc(ts[..n - 1], t, to);
      TextSnoc(s, Filter(ts[..n - 1], from), t);
      TextSnoc(s, Filter(ts[..n - 1], to), t);
    }
  }

  /** Any walk that covers a scope shows, of the tokens alive in it, exactly the scope's own text. */
  lemma JointProjection(s: State, u: set<nat>, a: set<nat>)
    requires Sound(s) && Closed(Graph(s), u) && Closed(Graph(s), a) && a <= u
    ensures Filter(Doc(s, u), Alive(s, a)) == Visible(s, a)
  {
    DocRestrict(s, u, a);
    FilterTwice(Doc(s, u), Tokens(s, a), Alive(s, a));
    assert Tokens(s, a) * Alive(s, a) == Alive(s, a);
  }

  /** Dropping the inserted tokens of a diff leaves the old text; dropping the deleted ones, the new text. */
  lemma DiffProjects(s: State, a: set<nat>, b: set<nat>, d: Decoded)
    requires Sound(s) && Closed(Graph(s), a) && Closed(Graph(s), b) && Closed(Graph(s), a + b)
    requires var from, to := Alive(s, a), Alive(s, b);
      Decodes(s, from, to, Filter(Doc(s, a + b), from + to), d)
    ensures |d.end| == |d.cls|
    ensures Side(d, InsertedIn, |d.cls|) == Render(s, a)
    ensures Side(d, DeletedIn, |d.cls|) == Render(s, b)
  {
    hide Doc, Alive, Filter, Text, Side;
    var from, to := Alive(s, a), Alive(s, b);
    var ts := Filter(Doc(s, a + b), from + to);
    FilterElements(Doc(s, a + b), from + to);
    SideIs(s, from, to, ts, d, |ts|);
    assert ts[..|ts|] == ts;
    FilterTwice(Doc(s, a + b), from + to, from);
    FilterTwice(Doc(s, a + b), from + to, to);
    assert (from + to) * from == from && (from + to) * to == to;
    JointProjection(s, a + b, a);
    JointProjection(s, a + b, b);
  }

  /** The diff between two stored commits, by one joint walk. */
  method Decode(w: Weave, from: nat, to: nat, ghost s: State, ghost ids: seq<nat>) returns (st: Status, d: Decoded)
    requires Represents(w, s, ids)
    ensures st == if from < |ids| && to < |ids| then OK else NOCM
    ensures from < |ids| && to < |ids| ==>
      && ids[from] in s && ids[to] in s && IsDag(Graph(s))
      && SeenBy(s, ids[from]) <= s.Keys && SeenBy(s, ids[to]) <= s.Keys
      && SeenBy(s, ids[from]) + SeenBy(s, ids[to]) <= s.Keys
      && var a, b := Alive(s, SeenBy(s, ids[from])), Alive(s, SeenBy(s, ids[to]));
      && Decodes(s, a, b, Filter(Doc(s, SeenBy(s, ids[from]) + SeenBy(s, ids[to])), a + b), d)
      && |d.end| == |d.cls|
      && Side(d, InsertedIn, |d.cls|) == Render(s, SeenBy(s, ids[from]))
      && Side(d, DeletedIn, |d.cls|) == Render(s, SeenBy(s, ids[to]))
  {
    d := Decoded([], [], []);
    if from >= |w.cmts| || to >= |w.cmts| {
      return NOCM, d;
    }
    CommitView(w, s, ids, from);
    CommitView(w, s, ids, to);
    ghost var a, b := SeenBy(s, ids[from]), SeenBy(s, ids[to]);
    ghost var v := View(s, ids, [a, b]);
    CommitSees(w, s, ids, from);
    CommitSees(w, s, ids, to);
    st, d := DecodeScopes(w, ScopeOf(w, from), ScopeOf(w, to), v, a, b);
    DiffProjects(s, a, b, d);
  }
}
