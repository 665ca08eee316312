/** The event log and its sidecar index: appends, truncations and rebuilds keep them telling the same rows. */
module Ulog {
  import opened Common
  import opened UlogCodec
  import opened UlogLines

  datatype Status = OK | NONE | CLOCK | NOROOM | FAIL | TORN | BADFMT

  /** An index entry: time, verb hash, byte offset; for the sentinel, the log's mtime, zero, and its size. */
  datatype Entry = Entry(key: nat, verbH: nat, off: nat)

  const ROOM := 2048

  function EntryOf(hash: nat -> nat, r: Placed): Entry {
    Entry(r.rec.ts, hash(r.rec.verb), r.off)
  }

  function Sentinel(mtime: nat, size: nat): Entry {
    Entry(mtime, 0, size)
  }

  function Zeros(n: nat): (z: seq<Byte>)
    ensures |z| == n && forall i | 0 <= i < n :: z[i] == 0
  {
    seq(n, (_: int) => 0)
  }

  /** No line end: nothing behind the log can pass for a row. */
  ghost predicate Clean(pad: seq<Byte>) {
    forall i | 0 <= i < |pad| :: pad[i] != NL
  }

  /** The first entries, one per row. */
  ghost predicate Indexed(hash: nat -> nat, idx: seq<Entry>, rows: seq<Placed>) {
    |rows| <= |idx| && forall i | 0 <= i < |rows| :: idx[i] == EntryOf(hash, rows[i])
  }

  /** One entry per row and a sentinel with the log's size, or nothing at all for no rows. */
  ghost predicate IndexIs(hash: nat -> nat, idx: seq<Entry>, rows: seq<Placed>, size: nat) {
    && Indexed(hash, idx, rows)
    && if idx == [] then rows == [] else |idx| == |rows| + 1 && idx[|rows|] == Sentinel(idx[|rows|].key, size)
  }

  /** Where rows with a time of `ts` or later begin. */
  ghost predicate Seeks(rows: seq<Placed>, ts: nat, i: nat) {
    && i <= |rows| && (forall k | 0 <= k < i :: rows[k].rec.ts < ts)
    && forall k | i <= k < |rows| :: rows[k].rec.ts >= ts
  }

  class Log {
    const cd: Codec
    const hash: nat -> nat
    var data: seq<Byte>
    var pad: seq<Byte>                           // mapped behind the log
    var idx: seq<Entry>

    constructor (cd: Codec, hash: nat -> nat, bytes: seq<Byte>)
      requires GoodCodec(cd)
      ensures this.cd == cd && this.hash == hash && data == bytes && pad == [] && idx == []
    {
      this.cd, this.hash, data, pad, idx := cd, hash, bytes, [], [];
    }

    ghost function Rows(): seq<Placed>
      reads this
    {
      if Lines(cd, data, 0).Some? then Lines(cd, data, 0).value else []
    }

    ghost predicate Sound()
      reads this
    {
      GoodCodec(cd) && Lines(cd, data, 0).Some? && Ascending(Rows()) && Clean(pad)
    }

    ghost predicate Valid()
      reads this
    {
      Sound() && IndexIs(hash, idx, Rows(), |data|)
    }

    function Count(): nat
      reads this
    {
      if idx == [] then 0 else |idx| - 1
    }

    // ---------- appending and truncating ----------

    method PushSentinel(mtime: nat)
      modifies this`idx
      ensures idx == old(idx) + [Sentinel(mtime, |data|)]
    {
      idx := idx + [Sentinel(mtime, |data|)];
    }

    /** The bytes a row may take: what is mapped behind the log, made at least `ROOM`. */
    function Space(): nat
      reads this
    {
      if |pad| < ROOM then ROOM else |pad|
    }

    /** One more row, unless its time does not advance.  A row that does not fit leaves behind the first `left` bytes
      * of it, however many its encoders come to write, and the index as it was. */
    method AppendAt(rec: LogRec, left: nat, mtime: nat) returns (st: Status)
      requires Valid() && Fits(cd, rec)
      modifies this
      ensures st == if old(Rows()) != [] && rec.ts <= old(Rows())[|old(Rows())| - 1].rec.ts then CLOCK
                    else if |Line(cd, rec)| <= old(Space()) then OK else NOROOM
      ensures st != NOROOM ==> Valid()
      ensures st != OK ==> idx == old(idx)
      ensures st == CLOCK ==> data == old(data) && pad == old(pad)
      ensures st == OK ==> data == old(data) + Line(cd, rec) && Rows() == old(Rows()) + [Placed(|old(data)|, rec)]
      ensures st == NOROOM ==> Torn(old(data), data, pad) && |data| <= |old(data)| + left
      ensures st == NOROOM ==> (Sound() <==> data == old(data))
    {
      hide Lines, Line, Drain, GoodCodec, Fits, Torn;
      var n := Count();
      if n > 0 {
        var last := idx[n - 1].key;
        if rec.ts <= last {
          return CLOCK;
        }
      }
      if |pad| < ROOM {
        pad := pad + Zeros(ROOM - |pad|);
      }
      var row := Line(cd, rec);
      if |row| > |pad| {
        var k := if left < |pad| then left else |pad|;
        LeavesTorn(cd, data, rec, pad, k);
        data, pad := data + row[..k], pad[k..];
        return NOROOM;
      }
      Put(rec, mtime);
      st := OK;
    }

    /** The row's bytes, its entry where the sentinel was, a new sentinel. */
    method Put(rec: LogRec, mtime: nat)
      requires Valid() && Fits(cd, rec) && |Line(cd, rec)| <= |pad|
      requires Rows() != [] ==> rec.ts > Rows()[|Rows()| - 1].rec.ts
      modifies this
      ensures Valid() && data == old(data) + Line(cd, rec) && Rows() == old(Rows()) + [Placed(|old(data)|, rec)]
    {
      hide Lines, Line, Drain, GoodCodec, Fits;
      var off := |data|;
      var row := Line(cd, rec);
      RowIsLine(cd, rec);
      RowRoundTrip(cd, rec, []);
      assert row + [] == row;
      LinesMore(cd, data, row, rec, 0);
      data, pad := data + row, pad[|row|..];
      var entry := Entry(rec.ts, hash(rec.verb), off);
      if idx != [] {
        idx := idx[Count() := entry];
      } else {
        idx := idx + [entry];
      }
      PushSentinel(mtime);
    }

    /** One more row at the current time, or just behind the last one. */
    method Append(rec: LogRec, left: nat, now: nat, mtime: nat) returns (st: Status, ts: nat)
      requires Valid() && Fits(cd, rec)
      modifies this
      ensures var all := old(Rows());
        ts == if all != [] && now <= all[|all| - 1].rec.ts then all[|all| - 1].rec.ts + 1 else now
      ensures st == if |Line(cd, rec.(ts := ts))| <= old(Space()) then OK else NOROOM
      ensures st == OK ==> Valid() && Rows() == old(Rows()) + [Placed(|old(data)|, rec.(ts := ts))]
      ensures st == NOROOM ==> idx == old(idx) && Torn(old(data), data, pad) && |data| <= |old(data)| + left
    {
      hide Lines, Line, GoodCodec, Torn;
      ts := now;
      var n := Count();
      if n > 0 {
        var last := idx[n - 1].key;
        if ts <= last {
          ts := last + 1;
        }
      }
      st := AppendAt(rec.(ts := ts), left, mtime);
    }

    /** Keeps the first rows, and zeroes the bytes of the others. */
    method Truncate(keep: nat, mtime: nat) returns (st: Status)
      requires Valid()
      modifies this
      ensures Valid() && (st == FAIL <==> keep > |old(Rows())|) && (st == OK || st == FAIL)
      ensures st == OK ==> Rows() == old(Rows())[..keep] && data <= old(data)
      ensures st == FAIL ==> data == old(data) && pad == old(pad) && idx == old(idx)
      ensures st == OK ==> |data| <= |old(data)| && pad == Zeros(|old(data)| - |data|) + old(pad)
    {
      hide Lines;
      ghost var rows := Rows();
      var n := Count();
      if keep > n {
        return FAIL;
      }
      if keep == n {
        return OK;
      }
      var cut := if keep > 0 then idx[keep].off else 0;
      if keep > 0 {
        assert idx[keep] == EntryOf(hash, rows[keep]);
        LinesCut(cd, data, 0, keep);
      } else {
        LinesEmpty(cd);
        assert data[..0] == [] && rows[..0] == [];
      }
      idx := idx[..keep];
      pad := Zeros(|data| - cut) + pad;
      data := data[..cut];
      PushSentinel(mtime);
      st := OK;
    }

    // ---------- rebuilding ----------

    /** Scans the whole map: every complete row becomes an entry, the log ends behind the last one. */
    method Scan() returns (st: Status)
      requires GoodCodec(cd)
      modifies this
      ensures data + pad == old(data + pad)
      ensures st == OK ==>
        Lines(cd, data, 0).Some? && Ascending(Rows()) && |idx| == |Rows()| && Indexed(hash, idx, Rows())
      ensures old(Sound()) ==> st == OK && data == old(data) && pad == old(pad)
      ensures st != OK || Tidy(old(data), old(pad)) ==> data == old(data) && pad == old(pad)
    {
      hide Lines, Drain, GoodCodec, Follows, Ascending;
      var map_ := data + pad;
      var end := |data|;
      ghost var sound := Sound();
      ghost var all := Rows();
      ghost var rows: seq<Placed> := [];
      var at: nat, prev: nat := 0, 0;
      idx := [];
      Starts(cd, map_, data, all);
      while at < |map_|
        invariant at <= |map_| && data == old(data) && pad == old(pad)
        invariant Lines(cd, map_[..at], 0) == Some(rows) && Ascending(rows) && |idx| == |rows|
        invariant Indexed(hash, idx, rows)
        invariant rows != [] ==> prev == rows[|rows| - 1].rec.ts
        invariant sound ==> at <= end && Follows(cd, data, all, rows, at)
        invariant Tidy(data, pad) ==> at <= end
        decreases |map_| - at
      {
        var c := map_[at];
        ghost var done := map_[..at];
        if sound {
          Ahead(cd, data, pad, all, rows, at);
        }
        if Tidy(data, pad) {
          TidyAhead(cd, data, pad, at);
        }
        if c == 0 {
          if at < end && !AllZero(map_[at..end]) {
            return TORN;
          }
          break;
        }
        if c == NL {
          LinesBlank(cd, done, 0);
          assert map_[..at + 1] == done + [NL];
          at := at + 1;
          continue;
        }
        var d := Drain(cd, map_[at..]);
        if d.st == NoLine {
          break;
        }
        if d.st == BadRow {
          return BADFMT;
        }
        if idx != [] && d.rec.ts <= prev {
          return CLOCK;
        }
        ScanRow(cd, map_, at, rows);
        ScanAscends(rows, Placed(at, d.rec));
        rows := rows + [Placed(at, d.rec)];
        idx := idx + [Entry(d.rec.ts, hash(d.rec.verb), at)];
        prev, at := d.rec.ts, at + d.used;
      }
      data, pad := map_[..at], map_[at..];
      st := OK;
    }

    /** The index from the log alone. */
    method Rebuild(mtime: nat) returns (st: Status)
      requires GoodCodec(cd)
      modifies this
      ensures st == OK && Tidy(old(data), old(pad)) ==> Valid()
      ensures st != OK || Tidy(old(data), old(pad)) ==> data == old(data) && pad == old(pad)
      ensures data + pad == old(data + pad)
      ensures old(Sound()) ==> st == OK && Valid() && data == old(data)
    {
      hide Lines, GoodCodec, Ascending;
      st := Scan();
      if st != OK {
        return;
      }
      PushSentinel(mtime);
    }

    // ---------- reading ----------

    /** The `i`th row, read from its indexed offset, is the `i`th of the linear scan. */
    method Row(i: nat) returns (st: Status, rec: LogRec)
      requires Valid()
      ensures st == if i < |Rows()| then OK else NONE
      ensures st == OK ==> rec == Rows()[i].rec
    {
      hide Lines, Drain, GoodCodec;
      rec := NoRec;
      if i >= Count() {
        return NONE, rec;
      }
      LinesRow(cd, data, 0, i);
      assert idx[i] == EntryOf(hash, Rows()[i]);
      var d := Drain(cd, data[idx[i].off..]);
      st, rec := OK, d.rec;
    }

    /** The first row at or after a time: binary search over the entries, the sentinel left out. */
    method Seek(ts: nat) returns (i: nat)
      requires Valid()
      ensures Seeks(Rows(), ts, i)
    {
      hide Lines, GoodCodec;
      ghost var rows := Rows();
      var lo, hi := 0, Count();
      while lo < hi
        invariant 0 <= lo <= hi <= |rows|
        invariant forall k | 0 <= k < lo :: rows[k].rec.ts < ts
        invariant forall k | hi <= k < |rows| :: rows[k].rec.ts >= ts
      {
        var mid := lo + (hi - lo) / 2;
        assert idx[mid] == EntryOf(hash, rows[mid]);
        if idx[mid].key < ts {
          lo := mid + 1;
        } else {
          hi := mid;
        }
      }
      i := lo;
    }

    /** The row of exactly this time, if there is one. */
    method Find(ts: nat) returns (st: Status, i: nat)
      requires Valid()
      ensures st == OK || st == NONE
      ensures st == OK <==> exists k :: 0 <= k < |Rows()| && Rows()[k].rec.ts == ts
      ensures st == OK ==> i < |Rows()| && Rows()[i].rec.ts == ts
    {
      hide Lines, GoodCodec;
      i := Seek(ts);
      if i >= Count() {
        return NONE, i;
      }
      assert idx[i] == EntryOf(hash, Rows()[i]);
      st := if idx[i].key != ts then NONE else OK;
    }

    /** The newest row a caller's test takes. */
    method FindLatest(pred: LogRec -> bool) returns (st: Status, rec: LogRec)
      requires Valid()
      ensures st == OK || st == NONE
      ensures st == NONE ==> forall k | 0 <= k < |Rows()| :: !pred(Rows()[k].rec)
      ensures st == OK ==> pred(rec) && Newest(Rows(), rec, pred)
    {
      hide Lines, GoodCodec;
      rec := NoRec;
      var i: nat := Count();
      while i > 0
        invariant i <= |Rows()| && forall k | i <= k < |Rows()| :: !pred(Rows()[k].rec)
      {
        i := i - 1;
        var o, r := Row(i);
        if pred(r) {
          assert Rows()[i].rec == r;
          return OK, r;
        }
      }
      st := NONE;
    }

    /** The newest row with a verb; entries whose hash differs are never parsed, and none is missed for it. */
    method FindVerb(verb: nat) returns (st: Status, rec: LogRec)
      requires Valid()
      ensures st == OK || st == NONE
      ensures st == NONE ==> forall k | 0 <= k < |Rows()| :: Rows()[k].rec.verb != verb
      ensures st == OK ==> rec.verb == verb && Newest(Rows(), rec, (r: LogRec) => r.verb == verb)
    {
      hide Lines, GoodCodec;
      rec := NoRec;
      var i: nat := Count();
      while i > 0
        invariant i <= |Rows()| && forall k | i <= k < |Rows()| :: Rows()[k].rec.verb != verb
      {
        i := i - 1;
        assert idx[i] == EntryOf(hash, Rows()[i]);
        if idx[i].verbH != hash(verb) {
          continue;
        }
        var o, r := Row(i);
        if r.verb == verb {
          assert Rows()[i].rec == r;
          return OK, r;
        }
      }
      st := NONE;
    }

    // ---------- opening ----------

    /** Puts the end of the log behind the last complete line, walking back over the zero pad; a partial last
      * row falls behind it. */
    method Backscan()
      modifies this`data, this`pad
      ensures data + pad == old(data + pad) && Clean(pad)
      ensures data == [] || data[|data| - 1] == NL
    {
      hide Clean;
      CleanNone();
      var m := data + pad;
      var p := |m|;
      assert m[p..] == [];
      while p > 0 && m[p - 1] == 0
        invariant 0 <= p <= |m| && Clean(m[p..])
      {
        CleanMore(m, p);
        p := p - 1;
      }
      if p > 0 && m[p - 1] != NL {
        while p > 0 && m[p - 1] != NL
          invariant 0 <= p <= |m| && Clean(m[p..])
        {
          CleanMore(m, p);
          p := p - 1;
        }
      }
      data, pad := m[..p], m[p..];
      assert m == m[..p] + m[p..];
    }

    /** Does the last indexed row end where the log ends? */
    method SpansLog() returns (b: bool)
      ensures b <==> Spans(cd, idx, data)
    {
      hide Fields;
      var n := Count();
      if n == 0 {
        return data == [];
      }
      var off := idx[n - 1].off;
      if off >= |data| {
        return false;
      }
      var row := data[off..];
      var nl := UlogCodec.Find(row, NL, 0);
      b := nl < |row| && off + nl + 1 == |data|;
    }

    /** Sentinel size and mtime agree with the log, and the entries reach its end. */
    method IsFresh(expected: nat) returns (b: bool)
      ensures b <==> Fresh(cd, idx, data, expected)
    {
      if idx == [] {
        return false;
      }
      var s := idx[|idx| - 1];
      if s.off != |data| || s.key == 0 || (expected != 0 && s.key != expected) {
        return false;
      }
      b := SpansLog();
    }

    /** Opens the log over a sidecar that describes some first rows of it under any sentinel: a sidecar that stops
      * short of the last row is never taken for fresh. */
    method Open(sidecar: Option<seq<Entry>>, expected: nat, mtime: nat) returns (st: Status)
      requires GoodCodec(cd)
      modifies this
      ensures data + pad == old(data + pad)
      ensures st == OK && (forall s | sidecar == Some(s) :: s == [] || Describes(cd, hash, s, data)) ==> Valid()
      ensures Tidy(data, pad) && (Sound() ==> st == OK)
      ensures sidecar.Some? && Fresh(cd, sidecar.value, data, expected) ==> st == OK && idx == sidecar.value
    {
      hide Lines, Drain, GoodCodec, Ascending, EntryOf;
      Backscan();
      if sidecar.Some? {
        idx := sidecar.value;
        var ok := IsFresh(expected);
        if ok {
          ghost var s := sidecar.value;
          if Describes(cd, hash, s, data) {
            PrefixNeverFresh(cd, hash, s, data);
          }
          st := OK;
          return;
        }
      }
      st := Rebuild(mtime);
    }
  }

  // ---------- a row cut short ----------

  lemma CleanNone()
    ensures Clean([])
  {
  }

  lemma CleanMore(m: seq<Byte>, p: nat)
    requires 0 < p <= |m| && m[p - 1] != NL && Clean(m[p..])
    ensures Clean(m[p - 1..])
  {
    assert m[p - 1..] == [m[p - 1]] + m[p..];
  }

  /** What is behind the log `d` now is no row and no line end. */
  ghost predicate Torn(d: seq<Byte>, data: seq<Byte>, pad: seq<Byte>) {
    && d <= data && Clean(data[|d|..]) && Clean(pad) && (d != [] ==> d[|d| - 1] == NL)
  }

  /** The first bytes of a row leave no line end, and no log if there are any. */
  lemma LeavesTorn(cd: Codec, data: seq<Byte>, rec: LogRec, pad: seq<Byte>, k: nat)
    requires GoodCodec(cd) && Fits(cd, rec) && Lines(cd, data, 0).Some? && k < |Line(cd, rec)| && k <= |pad|
    requires Clean(pad)
    ensures var row := Line(cd, rec);
      && Torn(data, data + row[..k], pad[k..]) && (Lines(cd, data + row[..k], 0).Some? <==> k == 0)
  {
    hide Lines, Line, GoodCodec, Fits;
    var row := Line(cd, rec);
    RowIsLine(cd, rec);
    if data != [] {
      LinesEnd(cd, data, 0);
    }
    assert (data + row[..k])[|data|..] == row[..k];
    if k == 0 {
      assert data + row[..0] == data;
    } else {
      TornLines(cd, data, row[..k], 0);
    }
  }

  /** A log ends with a line end. */
  lemma {:induction false} LinesEnd(cd: Codec, data: seq<Byte>, at: nat)
    requires at < |data| && Lines(cd, data, at).Some?
    ensures data[|data| - 1] == NL
    decreases |data| - at
  {
    hide Drain;
    if data[at] == NL {
      if at + 1 < |data| {
        LinesEnd(cd, data, at + 1);
      }
    } else {
      UsedInside(cd, data[at..]);
      RowEndsAt(cd, data[at..]);
      var next := at + Drain(cd, data[at..]).used;
      if next < |data| {
        LinesEnd(cd, data, next);
      }
    }
  }

  /** A drained row takes a whole line. */
  lemma RowEndsAt(cd: Codec, s: seq<Byte>)
    requires Drain(cd, s).st == Row
    ensures 0 < Drain(cd, s).used <= |s| && s[Drain(cd, s).used - 1] == NL
  {
    hide Fields;
  }

  /** With some of a row behind it, it is no log any more. */
  lemma {:induction false} TornLines(cd: Codec, data: seq<Byte>, part: seq<Byte>, at: nat)
    requires at <= |data| && Lines(cd, data, at).Some? && part != [] && Clean(part) && part[0] != 0
    ensures Lines(cd, data + part, at).None?
    decreases |data| - at
  {
    hide Drain;
    var s := data + part;
    if at == |data| {
      assert s[at..] == part;
      NoLineIn(cd, part);
    } else {
      assert s[at..] == data[at..] + part;
      if data[at] == NL {
        TornLines(cd, data, part, at + 1);
      } else {
        DrainFirst(cd, data[at..], part);
        UsedInside(cd, data[at..]);
        TornLines(cd, data, part, at + Drain(cd, data[at..]).used);
      }
    }
  }

  lemma NoLineIn(cd: Codec, part: seq<Byte>)
    requires Clean(part)
    ensures Drain(cd, part).st == NoLine
  {
    hide Fields;
  }

  lemma EndsInside(data: seq<Byte>, pad: seq<Byte>, data': seq<Byte>, pad': seq<Byte>)
    requires data + pad == data' + pad' && |data| < |data'| && data'[|data'| - 1] == NL
    ensures !Clean(pad)
  {
    var j := |data'| - 1;
    assert (data + pad)[j] == pad[j - |data|] && (data' + pad')[j] == data'[j];
  }

  /** There is one place in a map for a tidy log to end. */
  lemma TidyOnce(data: seq<Byte>, pad: seq<Byte>, data': seq<Byte>, pad': seq<Byte>)
    requires Tidy(data, pad) && Tidy(data', pad') && data + pad == data' + pad'
    ensures data == data'
  {
    if |data| < |data'| {
      EndsInside(data, pad, data', pad');
    } else if |data'| < |data| {
      EndsInside(data', pad', data, pad);
    } else {
      assert (data + pad)[..|data|] == data && (data' + pad')[..|data'|] == data';
    }
  }

  /** Opened again, with anything but a line end mapped behind it, the log is the one before the row cut short. */
  lemma TornReopens(d: seq<Byte>, data: seq<Byte>, pad: seq<Byte>, data': seq<Byte>, pad': seq<Byte>)
    requires Torn(d, data, pad) && Tidy(data', pad') && data' + pad' == data + pad
    ensures data' == d
  {
    var behind := data[|d|..] + pad;
    assert data == d + data[|d|..] && data + pad == d + behind;
    assert Clean(behind);
    TidyOnce(d, behind, data', pad');
  }

  predicate AllZero(s: seq<Byte>) {
    forall i | 0 <= i < |s| :: s[i] == 0
  }

  // ---------- facts about a scan ----------

  /** The rows met so far and the ones ahead are all of them. */
  ghost predicate Follows(cd: Codec, data: seq<Byte>, all: seq<Placed>, rows: seq<Placed>, at: nat) {
    at <= |data| && Lines(cd, data, at).Some? && all == rows + Lines(cd, data, at).value
  }

  lemma Starts(cd: Codec, map_: seq<Byte>, data: seq<Byte>, all: seq<Placed>)
    ensures Lines(cd, map_[..0], 0) == Some([]) && Ascending([])
    ensures Lines(cd, data, 0) == Some(all) ==> Follows(cd, data, all, [], 0)
  {
    assert map_[..0] == [] && [] + all == all;
  }

  /** Within the log the next line is blank or the next row; at its end there is none. */
  lemma Ahead(cd: Codec, data: seq<Byte>, pad: seq<Byte>, all: seq<Placed>, rows: seq<Placed>, at: nat)
    requires Follows(cd, data, all, rows, at) && Clean(pad) && at < |data + pad| && Ascending(all)
    ensures var m := data + pad;
      var d := Drain(cd, m[at..]);
      && (at < |data| ==> m[at] != 0)
      && (m[at] == NL ==> Follows(cd, data, all, rows, at + 1))
      && (m[at] != NL && at < |data| ==> d.st == Row && Follows(cd, data, all, rows + [Placed(at, d.rec)], at + d.used))
      && (m[at] != NL && at < |data| && rows != [] ==> d.rec.ts > rows[|rows| - 1].rec.ts)
      && (at == |data| ==> m[at] != NL && d.st == NoLine)
  {
    hide Fields, Find;
    var m := data + pad;
    if at < |data| {
      assert m[at] == data[at] && m[at..] == data[at..] + pad;
      if data[at] != NL {
        var d := Drain(cd, data[at..]);
        DrainFirst(cd, data[at..], pad);
        UsedInside(cd, data[at..]);
        var rest := Lines(cd, data, at + d.used).value;
        assert all == rows + [Placed(at, d.rec)] + rest;
        if rows != [] {
          assert all[|rows| - 1] == rows[|rows| - 1] && all[|rows|] == Placed(at, d.rec);
        }
      }
    } else {
      assert m[at..] == pad;
    }
  }

  /** A row scanned in the middle of the map is the next row of what was scanned. */
  lemma ScanRow(cd: Codec, m: seq<Byte>, at: nat, rows: seq<Placed>)
    requires at < |m| && m[at] != NL && m[at] != 0 && Lines(cd, m[..at], 0) == Some(rows)
    requires Drain(cd, m[at..]).st == Row
    ensures var d := Drain(cd, m[at..]);
      at + d.used <= |m| && Lines(cd, m[..at + d.used], 0) == Some(rows + [Placed(at, d.rec)])
  {
    hide Lines, Drain;
    var d := Drain(cd, m[at..]);
    UsedInside(cd, m[at..]);
    var line, more := m[at..at + d.used], m[at + d.used..];
    assert m[at..] == line + more && m[..at + d.used] == m[..at] + line;
    DrainLine(cd, line, more, d.used);
    LinesMore(cd, m[..at], line, d.rec, 0);
  }

  /** A log that ends with a line end, and no line end behind it. */
  ghost predicate Tidy(data: seq<Byte>, pad: seq<Byte>) {
    Clean(pad) && (data != [] ==> data[|data| - 1] == NL)
  }

  /** In a tidy map a scan stops at the end of the log and nowhere else. */
  lemma TidyAhead(cd: Codec, data: seq<Byte>, pad: seq<Byte>, at: nat)
    requires Tidy(data, pad) && at < |data + pad| && at <= |data|
    ensures var m := data + pad;
      var d := Drain(cd, m[at..]);
      && (at == |data| ==> m[at] != NL && d.st == NoLine)
      && (at < |data| ==> !AllZero(m[at..|data|]) && d.st != NoLine && at + d.used <= |data|)
  {
    hide Fields, Find;
    var m := data + pad;
    if at < |data| {
      var last := |data| - 1 - at;
      assert m[at..][last] == NL && m[at..|data|][last] == NL;
    } else {
      assert m[at..] == pad;
    }
  }

  lemma ScanAscends(rows: seq<Placed>, p: Placed)
    requires Ascending(rows) && (rows != [] ==> rows[|rows| - 1].rec.ts < p.rec.ts)
    ensures Ascending(rows + [p])
  {
  }

  ghost predicate Newest(rows: seq<Placed>, rec: LogRec, pred: LogRec -> bool) {
    exists i :: 0 <= i < |rows| && rows[i].rec == rec && forall k | i < k < |rows| :: !pred(rows[k].rec)
  }

  /** The last row's line ends where the log ends. */
  ghost predicate Spans(cd: Codec, idx: seq<Entry>, data: seq<Byte>) {
    if |idx| <= 1 then data == []
    else
      var off := idx[|idx| - 2].off;
      off < |data| && Drain(cd, data[off..]).st != NoLine && off + Drain(cd, data[off..]).used == |data|
  }

  /** A sidecar taken as it is: its sentinel has the log's size, and its time unless none is asked for. */
  ghost predicate Fresh(cd: Codec, idx: seq<Entry>, data: seq<Byte>, expected: nat) {
    && idx != [] && idx[|idx| - 1].off == |data|
    && idx[|idx| - 1].key != 0 && (expected == 0 || idx[|idx| - 1].key == expected)
    && Spans(cd, idx, data)
  }

  /** A sidecar's entries are the first rows of the log, however many; its last one is a sentinel. */
  ghost predicate Describes(cd: Codec, hash: nat -> nat, idx: seq<Entry>, data: seq<Byte>) {
    && idx != [] && Lines(cd, data, 0).Some? && Ascending(Lines(cd, data, 0).value)
    && idx[|idx| - 1].verbH == 0
    && |idx| - 1 <= |Lines(cd, data, 0).value|
    && Indexed(hash, idx, Lines(cd, data, 0).value[..|idx| - 1])
  }

  /** If its last entry's row ends where the log ends, it describes all the rows. */
  lemma PrefixNeverFresh(cd: Codec, hash: nat -> nat, idx: seq<Entry>, data: seq<Byte>)
    requires Describes(cd, hash, idx, data) && idx[|idx| - 1].off == |data| && Spans(cd, idx, data)
    ensures IndexIs(hash, idx, Lines(cd, data, 0).value, |data|)
  {
    hide Lines, Drain, Ascending;
    var rows, n := Lines(cd, data, 0).value, |idx| - 1;
    if n == 0 {
      LinesEmpty(cd);
    } else {
      assert idx[n - 1] == EntryOf(hash, rows[..n][n - 1]);
      LinesRow(cd, data, 0, n - 1);
      if n < |rows| {
        LinesRow(cd, data, 0, n);
      }
      assert rows[..|rows|] == rows;
    }
  }
}
