/** One row of the event log: a time, a verb and a URI on a line of their own. */
module UlogCodec {
  import opened Common

  const NL: Byte := 10
  const TAB: Byte := 9
  const SPACE: Byte := 32

  datatype LogRec = LogRec(ts: nat, verb: nat, uri: seq<Byte>)

  /** The RON number codec and the URI lexer. */
  datatype Codec = Codec(num: nat -> seq<Byte>, unnum: seq<Byte> -> Option<nat>, lexes: seq<Byte> -> bool)

  predicate IsWs(c: Byte) {
    c == SPACE || c == TAB
  }

  /** A token: some bytes, none of them a separator, a line end or a NUL. */
  predicate IsToken(s: seq<Byte>) {
    s != [] && forall i | 0 <= i < |s| :: !IsWs(s[i]) && s[i] != NL && s[i] != 0
  }

  ghost predicate NumBack(cd: Codec, v: nat) {
    IsToken(cd.num(v)) && cd.unnum(cd.num(v)) == Some(v)
  }

  /** The number codec is an exact inverse pair over tokens. */
  ghost predicate GoodCodec(cd: Codec) {
    forall v: nat :: NumBack(cd, v)
  }

  /** A record that can be written: its URI is one the lexer takes. */
  predicate Fits(cd: Codec, rec: LogRec) {
    IsToken(rec.uri) && cd.lexes(rec.uri)
  }

  // ---------- lines ----------

  /** The first place at or behind `i` that holds `c`, or the end. */
  function Find(s: seq<Byte>, c: Byte, i: nat): (r: nat)
    requires i <= |s|
    ensures i <= r <= |s| && (r < |s| ==> s[r] == c) && forall k | i <= k < r :: s[k] != c
    decreases |s| - i
  {
    if i == |s| || s[i] == c then i else Find(s, c, i + 1)
  }

  function SkipWs(s: seq<Byte>, i: nat, e: nat): (r: nat)
    requires i <= e <= |s|
    ensures i <= r <= e && (r < e ==> !IsWs(s[r])) && forall k | i <= k < r :: IsWs(s[k])
    decreases e - i
  {
    if i == e || !IsWs(s[i]) then i else SkipWs(s, i + 1, e)
  }

  function FindWs(s: seq<Byte>, i: nat, e: nat): (r: nat)
    requires i <= e <= |s|
    ensures i <= r <= e && (r < e ==> IsWs(s[r])) && forall k | i <= k < r :: !IsWs(s[k])
    decreases e - i
  {
    if i == e || IsWs(s[i]) then i else FindWs(s, i + 1, e)
  }

  // ---------- draining and feeding ----------

  datatype LineStatus = Row | NoLine | BadRow

  /** A drained line: the record if it is one, and how many bytes the line took. */
  datatype Drained = Drained(st: LineStatus, rec: LogRec, used: nat)

  const NoRec := LogRec(0, 0, [])

  /** The fields of a line that ends at `e`. */
  function Fields(cd: Codec, s: seq<Byte>, e: nat): Option<LogRec>
    requires e <= |s|
  {
    var tsEnd := FindWs(s, 0, e);
    if tsEnd == 0 || tsEnd == e then None
    else
      var ts := cd.unnum(s[..tsEnd]);
      if ts.None? then None
      else
        var verb := SkipWs(s, tsEnd, e);
        var verbEnd := FindWs(s, verb, e);
        if verb == e || verbEnd == verb || verbEnd == e then None
        else
          var v := cd.unnum(s[verb..verbEnd]);
          if v.None? then None
          else
            var uri := SkipWs(s, verbEnd, e);
            if uri == e || !cd.lexes(s[uri..e]) then None else Some(LogRec(ts.value, v.value, s[uri..e]))
  }

  /** The first line; a malformed one is stepped over all the same. */
  function Drain(cd: Codec, s: seq<Byte>): (d: Drained)
    ensures d.st != NoLine ==> 0 < d.used <= |s| && s[d.used - 1] == NL && forall k | 0 <= k < d.used - 1 :: s[k] != NL
    ensures d.st == NoLine <==> forall k | 0 <= k < |s| :: s[k] != NL
  {
    var nl := Find(s, NL, 0);
    if nl == |s| then Drained(NoLine, NoRec, 0)
    else
      var f := Fields(cd, s, nl);
      if f.None? then Drained(BadRow, NoRec, nl + 1) else Drained(Row, f.value, nl + 1)
  }

  /** A row's bytes. */
  function Line(cd: Codec, rec: LogRec): seq<Byte> {
    cd.num(rec.ts) + [TAB] + cd.num(rec.verb) + [TAB] + rec.uri + [NL]
  }

  lemma FindIs(s: seq<Byte>, c: Byte, i: nat, r: nat)
    requires i <= r < |s| && s[r] == c && forall k | i <= k < r :: s[k] != c
    ensures Find(s, c, i) == r
  {
    hide Find;
  }

  lemma FindWsIs(s: seq<Byte>, i: nat, e: nat, r: nat)
    requires i <= r <= e <= |s| && (r < e ==> IsWs(s[r])) && forall k | i <= k < r :: !IsWs(s[k])
    ensures FindWs(s, i, e) == r
  {
    hide FindWs;
  }

  lemma SkipWsIs(s: seq<Byte>, i: nat, e: nat, r: nat)
    requires i <= r <= e <= |s| && (r < e ==> !IsWs(s[r])) && forall k | i <= k < r :: IsWs(s[k])
    ensures SkipWs(s, i, e) == r
  {
    hide SkipWs;
  }

  /** Where the fields of a written line start and end. */
  lemma LineShape(cd: Codec, rec: LogRec, rest: seq<Byte>)
    requires IsToken(cd.num(rec.ts)) && IsToken(cd.num(rec.verb)) && IsToken(rec.uri)
    ensures var s := Line(cd, rec) + rest;
      var a := |cd.num(rec.ts)|;
      var b := a + 1 + |cd.num(rec.verb)|;
      var e := b + 1 + |rec.uri|;
      && e + 1 == |Line(cd, rec)| <= |s|
      && s[..a] == cd.num(rec.ts) && s[a] == TAB && s[a + 1..b] == cd.num(rec.verb) && s[b] == TAB
        && s[b + 1..e] == rec.uri && s[e] == NL
      && FindWs(s, 0, e) == a && SkipWs(s, a, e) == a + 1 && FindWs(s, a + 1, e) == b && SkipWs(s, b, e) == b + 1
      && Find(s, NL, 0) == e
  {
    hide FindWs, SkipWs, Find;
    var s := Line(cd, rec) + rest;
    var ts, verb, uri := cd.num(rec.ts), cd.num(rec.verb), rec.uri;
    var a := |ts|;
    var b := a + 1 + |verb|;
    var e := b + 1 + |uri|;
    assert forall k | 0 <= k < a :: s[k] == ts[k];
    assert forall k | a + 1 <= k < b :: s[k] == verb[k - a - 1];
    assert forall k | b + 1 <= k < e :: s[k] == uri[k - b - 1];
    assert s[a] == TAB && s[b] == TAB && s[e] == NL;
    FindWsIs(s, 0, e, a);
    SkipWsIs(s, a, e, a + 1);
    FindWsIs(s, a + 1, e, b);
    SkipWsIs(s, b, e, b + 1);
    FindIs(s, NL, 0, e);
  }

  /** A written row drains to itself, whatever follows it. */
  lemma RowRoundTrip(cd: Codec, rec: LogRec, rest: seq<Byte>)
    requires GoodCodec(cd) && Fits(cd, rec)
    ensures Drain(cd, Line(cd, rec) + rest) == Drained(Row, rec, |Line(cd, rec)|)
  {
    hide FindWs, SkipWs, Find, Line;
    assert NumBack(cd, rec.ts) && NumBack(cd, rec.verb);
    LineShape(cd, rec, rest);
  }

  ghost predicate Blanks(s: seq<Byte>) {
    s != [] && forall k | 0 <= k < |s| :: IsWs(s[k])
  }

  /** Five stretches of a line, and where each ends. */
  lemma FivePieces(a: seq<Byte>, x: seq<Byte>, b: seq<Byte>, y: seq<Byte>, u: seq<Byte>, rest: seq<Byte>)
    ensures var s := a + x + b + y + u + [NL] + rest;
      var i, j := |a|, |a| + |x|;
      var k, l := j + |b|, j + |b| + |y|;
      var e := l + |u|;
      s[..i] == a && s[i..j] == x && s[j..k] == b && s[k..l] == y && s[l..e] == u && s[e] == NL && |s| > e
  {
  }

  lemma PieceAt(s: seq<Byte>, i: nat, j: nat, x: seq<Byte>)
    requires i <= j <= |s| && s[i..j] == x
    ensures forall k | i <= k < j :: s[k] == x[k - i]
  {
    forall k | i <= k < j
      ensures s[k] == x[k - i]
    {
      assert s[i..j][k - i] == s[k];
    }
  }

  /** A line by its pieces: the time, blanks, the verb, blanks, and all the rest of it the URI. */
  lemma LineWire(cd: Codec, a: seq<Byte>, x: seq<Byte>, b: seq<Byte>, y: seq<Byte>, u: seq<Byte>, rest: seq<Byte>)
    requires IsToken(a) && Blanks(x) && IsToken(b) && Blanks(y)
    requires u != [] && !IsWs(u[0]) && NL !in u
    ensures var t, v := cd.unnum(a), cd.unnum(b);
      Drain(cd, a + x + b + y + u + [NL] + rest)
      == if t.Some? && v.Some? && cd.lexes(u) then Drained(Row, LogRec(t.value, v.value, u), |a + x + b + y + u| + 1)
         else Drained(BadRow, NoRec, |a + x + b + y + u| + 1)
  {
    hide FindWs, SkipWs, Find;
    var s := a + x + b + y + u + [NL] + rest;
    var i, j := |a|, |a| + |x|;
    var k, l := j + |b|, j + |b| + |y|;
    var e := l + |u|;
    FivePieces(a, x, b, y, u, rest);
    PieceAt(s, 0, i, a);
    PieceAt(s, i, j, x);
    PieceAt(s, j, k, b);
    PieceAt(s, k, l, y);
    PieceAt(s, l, e, u);
    FindWsIs(s, 0, e, i);
    SkipWsIs(s, i, e, j);
    FindWsIs(s, j, e, k);
    SkipWsIs(s, k, e, l);
    assert Find(s, NL, 0) == e by {
      forall n | 0 <= n < e
        ensures s[n] != NL
      {
        assert l <= n ==> u[n - l] in u;
      }
      FindIs(s, NL, 0, e);
    }
  }

  /** A written row is one line, with nothing in it that a scan would stop at. */
  lemma RowIsLine(cd: Codec, rec: LogRec)
    requires GoodCodec(cd) && Fits(cd, rec)
    ensures var s := Line(cd, rec);
      && |s| > 1 && s[|s| - 1] == NL && s[0] != NL && s[0] != 0
      && (forall k | 0 <= k < |s| - 1 :: s[k] != NL) && forall k | 0 <= k < |s| :: s[k] != 0
  {
    hide FindWs, SkipWs, Find;
    assert NumBack(cd, rec.ts) && NumBack(cd, rec.verb);
    var s, ts, verb, uri := Line(cd, rec), cd.num(rec.ts), cd.num(rec.verb), rec.uri;
    var a := |ts|;
    var b := a + 1 + |verb|;
    assert s[0] == ts[0] && s[a] == TAB && s[b] == TAB && s[|s| - 1] == NL && |s| == b + 2 + |uri|;
    forall k | 0 <= k < |s|
      ensures s[k] != 0 && (k < |s| - 1 ==> s[k] != NL)
    {
      assert k < a ==> s[k] == ts[k];
      assert a < k < b ==> s[k] == verb[k - a - 1];
      assert b < k < |s| - 1 ==> s[k] == uri[k - b - 1];
    }
  }

  // ---------- only the first line matters ----------

  lemma {:induction false} FindWsSame(s: seq<Byte>, t: seq<Byte>, i: nat, e: nat)
    requires i <= e <= |s| && e <= |t| && s[..e] == t[..e]
    ensures FindWs(s, i, e) == FindWs(t, i, e) && SkipWs(s, i, e) == SkipWs(t, i, e)
    decreases e - i
  {
    if i < e {
      assert s[i] == s[..e][i] == t[..e][i] == t[i];
      FindWsSame(s, t, i + 1, e);
    }
  }

  lemma FieldsSame(cd: Codec, s: seq<Byte>, t: seq<Byte>, e: nat)
    requires e <= |s| && e <= |t| && s[..e] == t[..e]
    ensures Fields(cd, s, e) == Fields(cd, t, e)
  {
    hide FindWs, SkipWs;
    var a := FindWs(s, 0, e);
    FindWsSame(s, t, 0, e);
    var v := SkipWs(s, a, e);
    FindWsSame(s, t, a, e);
    var b := FindWs(s, v, e);
    FindWsSame(s, t, v, e);
    var u := SkipWs(s, b, e);
    FindWsSame(s, t, b, e);
    PartSame(s, t, e, 0, a);
    assert s[0..a] == s[..a] && t[0..a] == t[..a];
    PartSame(s, t, e, v, b);
    PartSame(s, t, e, u, e);
  }

  lemma PartSame(s: seq<Byte>, t: seq<Byte>, e: nat, i: nat, j: nat)
    requires e <= |s| && e <= |t| && s[..e] == t[..e] && i <= j <= e
    ensures s[i..j] == t[i..j]
  {
    assert s[i..j] == s[..e][i..j] && t[i..j] == t[..e][i..j];
  }

  /** Bytes behind a complete line do not change what it drains to. */
  lemma DrainFirst(cd: Codec, s: seq<Byte>, more: seq<Byte>)
    requires Drain(cd, s).st != NoLine
    ensures Drain(cd, s + more) == Drain(cd, s)
  {
    hide Fields, Find;
    var nl := Find(s, NL, 0);
    var t := s + more;
    assert t[nl] == NL && forall k | 0 <= k < nl :: t[k] == s[k];
    FindIs(t, NL, 0, nl);
    assert t[..nl] == s[..nl];
    FieldsSame(cd, s, t, nl);
  }
}
