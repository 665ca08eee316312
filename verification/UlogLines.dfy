/** A linear scan of the log: which rows its bytes hold, and where. */
module UlogLines {
  import opened Common
  import opened UlogCodec

  /** A row and where it starts. */
  datatype Placed = Placed(off: nat, rec: LogRec)

  /** The rows from `at` on: blank lines are stepped over; a NUL, a malformed or an unfinished row is no log. */
  function Lines(cd: Codec, data: seq<Byte>, at: nat): Option<seq<Placed>>
    decreases |data| - at
  {
    if at >= |data| then Some([])
    else if data[at] == NL then Lines(cd, data, at + 1)
    else if data[at] == 0 then None
    else
      var d := Drain(cd, data[at..]);
      if d.st != Row then None
      else
        var rest := Lines(cd, data, at + d.used);
        if rest.None? then None else Some([Placed(at, d.rec)] + rest.value)
  }

  ghost predicate Ascending(rows: seq<Placed>) {
    forall i, j | 0 <= i < j < |rows| :: rows[i].rec.ts < rows[j].rec.ts
  }

  // ---------- at the end ----------

  lemma {:induction false} LinesMore(cd: Codec, data: seq<Byte>, line: seq<Byte>, rec: LogRec, at: nat)
    requires at <= |data| && Lines(cd, data, at).Some? && line != [] && line[0] != NL && line[0] != 0
    requires Drain(cd, line) == Drained(Row, rec, |line|)
    ensures Lines(cd, data + line, at) == Some(Lines(cd, data, at).value + [Placed(|data|, rec)])
    decreases |data| - at
  {
    hide Drain;
    var s := data + line;
    if at == |data| {
      LinesLast(cd, data, line, rec);
    } else {
      assert s[at..] == data[at..] + line && s[at] == data[at];
      if data[at] == NL {
        LinesMore(cd, data, line, rec, at + 1);
      } else {
        var d := Drain(cd, data[at..]);
        DrainFirst(cd, data[at..], line);
        UsedInside(cd, data[at..]);
        LinesMore(cd, data, line, rec, at + d.used);
        var rest := Lines(cd, data, at + d.used).value;
        assert [Placed(at, d.rec)] + rest + [Placed(|data|, rec)]
            == [Placed(at, d.rec)] + (rest + [Placed(|data|, rec)]);
      }
    }
  }

  lemma LinesLast(cd: Codec, data: seq<Byte>, line: seq<Byte>, rec: LogRec)
    requires line != [] && line[0] != NL && line[0] != 0 && Drain(cd, line) == Drained(Row, rec, |line|)
    ensures Lines(cd, data, |data|) == Some([])
    ensures Lines(cd, data + line, |data|) == Some([] + [Placed(|data|, rec)])
  {
    hide Drain;
    var s, at := data + line, |data|;
    assert s[at..] == line && s[at] == line[0];
    assert Lines(cd, s, at + |line|) == Some([]);
    assert [Placed(at, rec)] + [] == [] + [Placed(at, rec)];
  }

  lemma UsedInside(cd: Codec, s: seq<Byte>)
    requires Drain(cd, s).st != NoLine
    ensures 0 < Drain(cd, s).used <= |s|
  {
  }

  lemma {:induction false} LinesBlank(cd: Codec, data: seq<Byte>, at: nat)
    requires at <= |data| && Lines(cd, data, at).Some?
    ensures Lines(cd, data + [NL], at) == Lines(cd, data, at)
    decreases |data| - at
  {
    hide Drain;
    var s := data + [NL];
    if at == |data| {
      assert Lines(cd, s, at + 1) == Some([]);
    } else {
      assert s[at..] == data[at..] + [NL];
      if data[at] == NL {
        LinesBlank(cd, data, at + 1);
      } else {
        DrainFirst(cd, data[at..], [NL]);
        UsedInside(cd, data[at..]);
        LinesBlank(cd, data, at + Drain(cd, data[at..]).used);
      }
    }
  }

  // ---------- one row ----------

  /** Row `i` drains from its offset, and ends no later than the next one starts. */
  ghost predicate RowHere(cd: Codec, data: seq<Byte>, rows: seq<Placed>, i: nat) {
    && i < |rows| && rows[i].off < |data| && Drain(cd, data[rows[i].off..]).st == Row
      && Drain(cd, data[rows[i].off..]).rec == rows[i].rec
    && rows[i].off + Drain(cd, data[rows[i].off..]).used <= if i + 1 < |rows| then rows[i + 1].off else |data|
  }

  lemma {:induction false} LinesRow(cd: Codec, data: seq<Byte>, at: nat, i: nat)
    requires at <= |data| && Lines(cd, data, at).Some? && i < |Lines(cd, data, at).value|
    ensures RowHere(cd, data, Lines(cd, data, at).value, i) && Lines(cd, data, at).value[i].off >= at
    decreases |data| - at
  {
    hide Drain;
    if data[at] == NL {
      LinesRow(cd, data, at + 1, i);
    } else {
      var d := Drain(cd, data[at..]);
      UsedInside(cd, data[at..]);
      var rest := Lines(cd, data, at + d.used).value;
      if i > 0 {
        LinesRow(cd, data, at + d.used, i - 1);
      } else if rest != [] {
        LinesRow(cd, data, at + d.used, 0);
      }
    }
  }

  /** The bytes before row `k` hold exactly the rows before it. */
  lemma {:induction false} LinesCut(cd: Codec, data: seq<Byte>, at: nat, k: nat)
    requires at <= |data| && Lines(cd, data, at).Some? && k < |Lines(cd, data, at).value|
    ensures var rows := Lines(cd, data, at).value;
      at <= rows[k].off < |data| && Lines(cd, data[..rows[k].off], at) == Some(rows[..k])
    decreases |data| - at
  {
    hide Drain;
    var rows := Lines(cd, data, at).value;
    LinesRow(cd, data, at, k);
    var cut := rows[k].off;
    if data[at] == NL {
      LinesCut(cd, data, at + 1, k);
    } else if k > 0 {
      var d := Drain(cd, data[at..]);
      UsedInside(cd, data[at..]);
      LinesCut(cd, data, at + d.used, k - 1);
      var t := data[..cut];
      assert t[at..] + data[cut..] == data[at..];
      assert t[at..] == data[at..cut];
      DrainLine(cd, t[at..], data[cut..], d.used);
      assert rows[..k] == [rows[0]] + rows[1..][..k - 1];
    }
  }

  /** A line complete within `s` drains the same with or without what follows. */
  lemma DrainLine(cd: Codec, s: seq<Byte>, more: seq<Byte>, used: nat)
    requires Drain(cd, s + more).st == Row && Drain(cd, s + more).used == used <= |s|
    ensures Drain(cd, s) == Drain(cd, s + more)
  {
    hide Fields, Find;
    assert (s + more)[used - 1] == s[used - 1];
    DrainFirst(cd, s, more);
  }

  /** An empty log has no rows. */
  lemma LinesEmpty(cd: Codec)
    ensures Lines(cd, [], 0) == Some([])
  {
  }
}
