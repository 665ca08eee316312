/** The index a run looks bases up in: a dirty page scanned newest first, then sorted runs, newest first. */
module RepackIndex {
  import opened Common
  import opened PackFormat
  import opened RepackState

  const PAGE := 256

  /** Rows not yet in a run, oldest first, and the runs, oldest first. */
  datatype Index = Index(page: seq<Row>, runs: seq<seq<Row>>)

  /** By prefix, then type, then place. */
  predicate RowLe(a: Row, b: Row) {
    || a.key < b.key
    || (a.key == b.key && (a.typ < b.typ || (a.typ == b.typ && (a.off < b.off || (a.off == b.off && a.id <= b.id)))))
  }

  ghost predicate Sorted(run: seq<Row>) {
    forall i, j | 0 <= i < j < |run| :: RowLe(run[i], run[j])
  }

  /** Page and runs together hold exactly these rows. */
  ghost predicate Holds(ix: Index, rows: seq<Row>) {
    && (forall k | 0 <= k < |ix.runs| :: Sorted(ix.runs[k]))
    && forall r :: r in rows <==> r in ix.page || InRuns(ix.runs, r)
  }

  ghost predicate InRuns(runs: seq<seq<Row>>, r: Row) {
    exists k :: 0 <= k < |runs| && r in runs[k]
  }

  /** Rows of one prefix are of one type. */
  ghost predicate TypesAgree(rows: seq<Row>) {
    forall a, b | a in rows && b in rows && a.key == b.key :: a.typ == b.typ
  }

  // ---------- looking up ----------

  /** The first place in a run at or behind `i` with a prefix not below `key`. */
  function FirstFrom(run: seq<Row>, key: nat, i: nat): (f: nat)
    requires i <= |run|
    ensures i <= f <= |run| && (f < |run| ==> run[f].key >= key) && forall j | i <= j < f :: run[j].key < key
    decreases |run| - i
  {
    if i == |run| || run[i].key >= key then i else FirstFrom(run, key, i + 1)
  }

  /** What one run answers: its first row under the prefix, if that is of an object type. */
  function RunFor(run: seq<Row>, key: nat): Option<Row> {
    var f := FirstFrom(run, key, 0);
    if f == |run| || !Admits(run[f], key) then None else Some(run[f])
  }

  function RunsFor(runs: seq<seq<Row>>, key: nat): Option<Row> {
    if runs == [] then None
    else
      var r := RunFor(runs[|runs| - 1], key);
      if r.Some? then r else RunsFor(runs[..|runs| - 1], key)
  }

  function Lookup(ix: Index, key: nat): Option<Row> {
    var r := RowFor(ix.page, key);
    if r.Some? then r else RunsFor(ix.runs, key)
  }

  function Look(ix: Index): Pick {
    (key: nat) => Lookup(ix, key)
  }

  lemma SortedKeys(run: seq<Row>, i: nat, j: nat)
    requires Sorted(run) && i <= j < |run|
    ensures run[i].key <= run[j].key
  {
    if i < j {
      assert RowLe(run[i], run[j]);
    }
  }

  /** The first row of a sorted run not below a prefix. */
  method FindGE(run: seq<Row>, key: nat) returns (f: nat)
    requires Sorted(run)
    ensures f == FirstFrom(run, key, 0)
  {
    hide Sorted;
    var lo, hi := 0, |run|;
    while lo < hi
      invariant 0 <= lo <= hi <= |run|
      invariant forall i | 0 <= i < lo :: run[i].key < key
      invariant forall i | hi <= i < |run| :: run[i].key >= key
    {
      var mid := lo + (hi - lo) / 2;
      if run[mid].key < key {
        forall i | 0 <= i <= mid
          ensures run[i].key < key
        {
          SortedKeys(run, i, mid);
        }
        lo := mid + 1;
      } else {
        forall i | mid <= i < |run|
          ensures run[i].key >= key
        {
          SortedKeys(run, mid, i);
        }
        hi := mid;
      }
    }
    f := lo;
    FirstIs(run, key, 0, f);
  }

  lemma {:induction false} FirstIs(run: seq<Row>, key: nat, i: nat, f: nat)
    requires i <= f <= |run| && (forall j | i <= j < f :: run[j].key < key) && (f < |run| ==> run[f].key >= key)
    ensures FirstFrom(run, key, i) == f
    decreases f - i
  {
    if i < f {
      FirstIs(run, key, i + 1, f);
    }
  }

  /** The page backwards, then the runs backwards, the first that answers. */
  method Find(ix: Index, key: nat) returns (r: Option<Row>)
    requires forall k | 0 <= k < |ix.runs| :: Sorted(ix.runs[k])
    ensures r == Lookup(ix, key)
  {
    hide Sorted, FirstFrom;
    var i := |ix.page|;
    assert ix.page[..i] == ix.page;
    while i > 0
      invariant 0 <= i <= |ix.page| && RowFor(ix.page[..i], key) == RowFor(ix.page, key)
    {
      i := i - 1;
      assert ix.page[..i + 1][..i] == ix.page[..i];
      if Admits(ix.page[i], key) {
        return Some(ix.page[i]);
      }
    }
    assert ix.page[..0] == [];
    var n := |ix.runs|;
    assert ix.runs[..n] == ix.runs;
    while n > 0
      invariant 0 <= n <= |ix.runs| && RunsFor(ix.runs[..n], key) == RunsFor(ix.runs, key)
    {
      n := n - 1;
      assert ix.runs[..n + 1][..n] == ix.runs[..n];
      var f := FindGE(ix.runs[n], key);
      if f < |ix.runs[n]| && Admits(ix.runs[n][f], key) {
        return Some(ix.runs[n][f]);
      }
    }
    assert ix.runs[..0] == [];
    r := None;
  }

  // ---------- a lookup answers for the rows it holds ----------

  lemma RunAnswers(run: seq<Row>, key: nat)
    requires Sorted(run) && TypesAgree(run)
    ensures RunFor(run, key).Some? ==> RunFor(run, key).value in run && Admits(RunFor(run, key).value, key)
    ensures (exists r :: r in run && Admits(r, key)) ==> RunFor(run, key).Some?
  {
    var f := FirstFrom(run, key, 0);
    if r :| r in run && Admits(r, key) {
      var i :| 0 <= i < |run| && run[i] == r;
      SortedKeys(run, f, i);
      assert run[f] in run;
    }
  }

  lemma {:induction false} RunsAnswer(runs: seq<seq<Row>>, key: nat)
    requires forall k | 0 <= k < |runs| :: Sorted(runs[k]) && TypesAgree(runs[k])
    ensures RunsFor(runs, key).Some? ==> InRuns(runs, RunsFor(runs, key).value) && Admits(RunsFor(runs, key).value, key)
    ensures (exists r :: InRuns(runs, r) && Admits(r, key)) ==> RunsFor(runs, key).Some?
  {
    hide Sorted, TypesAgree, RunFor;
    if runs != [] {
      var n := |runs| - 1;
      RunAnswers(runs[n], key);
      RunsAnswer(runs[..n], key);
      if r :| InRuns(runs, r) && Admits(r, key) {
        var k :| 0 <= k < |runs| && r in runs[k];
        assert k < n ==> r in runs[..n][k];
      }
      if RunsFor(runs[..n], key).Some? {
        var k :| 0 <= k < n && RunsFor(runs[..n], key).value in runs[..n][k];
        assert RunsFor(runs[..n], key).value in runs[k];
      }
    }
  }

  /** Whatever is in the page and whatever in which run, a lookup answers with a row of the prefix if there is one. */
  lemma LookupGood(ix: Index, rows: seq<Row>)
    requires Holds(ix, rows) && TypesAgree(rows)
    ensures GoodPick(Look(ix), rows)
  {
    hide Sorted, RunsFor, RowFor, InRows;
    forall key: nat
      ensures PickOk(Look(ix), rows, key)
    {
      LookupAnswers(ix, rows, key);
    }
  }

  /** Row `f` is the first of a run under a prefix or past it. */
  ghost predicate FirstAt(run: seq<Row>, key: nat, f: nat) {
    f <= |run| && (forall j | 0 <= j < f :: run[j].key < key) && (f < |run| ==> run[f].key >= key)
  }

  /** A run that answers, and with which row: the first under the prefix. */
  ghost predicate RunSays(run: seq<Row>, key: nat, r: Row) {
    exists f: nat :: FirstAt(run, key, f) && f < |run| && run[f] == r && Admits(r, key)
  }

  lemma FirstOnly(run: seq<Row>, key: nat, f: nat)
    requires FirstAt(run, key, f)
    ensures f == FirstFrom(run, key, 0)
  {
    hide FirstFrom;
  }

  lemma RunForIs(run: seq<Row>, key: nat)
    ensures RunFor(run, key).Some? <==> exists r :: RunSays(run, key, r)
    ensures RunFor(run, key).Some? ==> RunSays(run, key, RunFor(run, key).value)
  {
    hide FirstFrom;
    var f := FirstFrom(run, key, 0);
    assert FirstAt(run, key, f);
    assert f < |run| && Admits(run[f], key) ==> RunSays(run, key, run[f]);
    if r :| RunSays(run, key, r) {
      var g: nat :| FirstAt(run, key, g) && g < |run| && run[g] == r && Admits(r, key);
      FirstOnly(run, key, g);
    }
  }

  /** The newest admitted row of the page. */
  ghost predicate PageSays(page: seq<Row>, key: nat, r: Row) {
    exists i :: 0 <= i < |page| && page[i] == r && Admits(r, key) && forall j | i < j < |page| :: !Admits(page[j], key)
  }

  lemma {:induction false} RowForNewest(page: seq<Row>, key: nat)
    ensures RowFor(page, key).Some? ==> PageSays(page, key, RowFor(page, key).value)
    ensures RowFor(page, key).None? ==> forall i | 0 <= i < |page| :: !Admits(page[i], key)
  {
    if page != [] && !Admits(page[|page| - 1], key) {
      var m := page[..|page| - 1];
      RowForNewest(m, key);
      if RowFor(m, key).Some? {
        var r := RowFor(m, key).value;
        var i :| 0 <= i < |m| && m[i] == r && Admits(r, key) && forall j | i < j < |m| :: !Admits(m[j], key);
        assert page[i] == r;
      }
    }
  }

  /** The youngest run that answers does. */
  ghost predicate YoungestSays(runs: seq<seq<Row>>, key: nat, r: Row) {
    exists k :: 0 <= k < |runs| && RunSays(runs[k], key, r) && forall m | k < m < |runs| :: RunFor(runs[m], key).None?
  }

  lemma {:induction false} RunsForYoungest(runs: seq<seq<Row>>, key: nat)
    ensures RunsFor(runs, key).Some? ==> YoungestSays(runs, key, RunsFor(runs, key).value)
    ensures RunsFor(runs, key).None? ==> forall k | 0 <= k < |runs| :: RunFor(runs[k], key).None?
  {
    hide RunFor, RunSays;
    if runs != [] {
      var n, m := |runs| - 1, runs[..|runs| - 1];
      RunForIs(runs[n], key);
      RunsForYoungest(m, key);
      if RunFor(runs[n], key).None? && RunsFor(m, key).Some? {
        var r := RunsFor(m, key).value;
        var k :| 0 <= k < |m| && RunSays(m[k], key, r) && forall x | k < x < |m| :: RunFor(m[x], key).None?;
        assert runs[k] == m[k];
      }
    }
  }

  /** A lookup answers with the newest admitted row of the page; without one, the youngest run answers whose first row
    * of the prefix is admitted, with that row; without such a run there is no answer. */
  lemma LookupNewest(ix: Index, key: nat)
    ensures var r := Lookup(ix, key);
      if exists i :: 0 <= i < |ix.page| && Admits(ix.page[i], key) then r.Some? && PageSays(ix.page, key, r.value)
      else if exists k :: 0 <= k < |ix.runs| && RunFor(ix.runs[k], key).Some? then
        r.Some? && YoungestSays(ix.runs, key, r.value)
      else r.None?
  {
    hide RunFor, RunsFor, RowFor, YoungestSays;
    RowForNewest(ix.page, key);
    RunsForYoungest(ix.runs, key);
    if RunsFor(ix.runs, key).Some? {
      YoungestAnswers(ix.runs, key, RunsFor(ix.runs, key).value);
    }
  }

  lemma YoungestAnswers(runs: seq<seq<Row>>, key: nat, r: Row)
    requires YoungestSays(runs, key, r)
    ensures exists k :: 0 <= k < |runs| && RunFor(runs[k], key).Some?
  {
    hide RunFor, RunSays;
    var k :| 0 <= k < |runs| && RunSays(runs[k], key, r) && forall m | k < m < |runs| :: RunFor(runs[m], key).None?;
    RunForIs(runs[k], key);
  }

  lemma LookupAnswers(ix: Index, rows: seq<Row>, key: nat)
    requires Holds(ix, rows) && TypesAgree(rows)
    ensures Lookup(ix, key).Some? <==> InRows(rows, key)
    ensures Lookup(ix, key).Some? ==> Lookup(ix, key).value in rows && Admits(Lookup(ix, key).value, key)
  {
    hide Sorted, RunsFor, RowFor;
    RowForIn(ix.page, key);
    RunsTyped(ix, rows);
    RunsAnswer(ix.runs, key);
    if InRows(rows, key) {
      var i :| 0 <= i < |rows| && Admits(rows[i], key);
      assert rows[i] in rows;
      if rows[i] in ix.page {
        RowIn(ix.page, rows[i]);
      }
    }
    if Lookup(ix, key).Some? {
      RowIn(rows, Lookup(ix, key).value);
    }
  }

  lemma RunsTyped(ix: Index, rows: seq<Row>)
    requires Holds(ix, rows) && TypesAgree(rows)
    ensures forall k | 0 <= k < |ix.runs| :: Sorted(ix.runs[k]) && TypesAgree(ix.runs[k])
  {
    hide Sorted;
    forall k | 0 <= k < |ix.runs|
      ensures TypesAgree(ix.runs[k])
    {
      forall r | r in ix.runs[k]
        ensures r in rows
      {
        assert InRuns(ix.runs, r);
      }
    }
  }

  lemma HoldsSorted(ix: Index, rows: seq<Row>)
    requires Holds(ix, rows)
    ensures forall k | 0 <= k < |ix.runs| :: Sorted(ix.runs[k])
  {
    hide Sorted;
  }

  // ---------- adding rows ----------

  /** The rows in order. */
  method Arrange(rows: seq<Row>) returns (run: seq<Row>)
    ensures Sorted(run) && multiset(run) == multiset(rows)
  {
    hide RowLe;
    run := [];
    for n := 0 to |rows|
      invariant Sorted(run) && multiset(run) == multiset(rows[..n])
    {
      assert rows[..n + 1] == rows[..n] + [rows[n]];
      run := Insert(run, rows[n]);
    }
    assert rows[..|rows|] == rows;
  }

  lemma LeEither(a: Row, b: Row)
    ensures RowLe(a, b) || RowLe(b, a)
  {
  }

  lemma LeTrans(a: Row, b: Row, c: Row)
    requires RowLe(a, b) && RowLe(b, c)
    ensures RowLe(a, c)
  {
  }

  method Insert(run: seq<Row>, r: Row) returns (run': seq<Row>)
    requires Sorted(run)
    ensures Sorted(run') && multiset(run') == multiset(run) + multiset{r}
  {
    hide RowLe;
    var i := |run|;
    while i > 0 && !RowLe(run[i - 1], r)
      invariant 0 <= i <= |run| && forall j | i <= j < |run| :: RowLe(r, run[j])
    {
      LeEither(run[i - 1], r);
      i := i - 1;
    }
    run' := run[..i] + [r] + run[i..];
    Inserted(run, r, i);
  }

  lemma Inserted(run: seq<Row>, r: Row, i: nat)
    requires Sorted(run) && i <= |run| && (i > 0 ==> RowLe(run[i - 1], r))
    requires forall j | i <= j < |run| :: RowLe(r, run[j])
    ensures var s := run[..i] + [r] + run[i..]; Sorted(s) && multiset(s) == multiset(run) + multiset{r}
  {
    hide RowLe;
    var s := run[..i] + [r] + run[i..];
    assert run == run[..i] + run[i..];
    forall a, b | 0 <= a < b < |s|
      ensures RowLe(s[a], s[b])
    {
      if b == i && a < i - 1 {
        LeTrans(run[a], run[i - 1], r);
      }
    }
  }

  /** The page becomes the newest run, and the youngest runs are merged, as many as the policy says. */
  method Flush(ix: Index, policy: seq<nat> -> nat, ghost rows: seq<Row>) returns (ix': Index)
    requires Holds(ix, rows)
    ensures Holds(ix', rows) && ix'.page == []
  {
    hide Sorted;
    if ix.page == [] {
      return ix;
    }
    var run := Arrange(ix.page);
    ix' := Index([], ix.runs + [run]);
    SameRows(run, ix.page);
    Landed(ix, ix', run, rows);
    var m := policy(Sizes(ix'.runs));
    if 2 <= m <= |ix'.runs| {
      var k := |ix'.runs| - m;
      var all := Concat(ix'.runs[k..]);
      var merged := Arrange(all);
      SameRows(merged, all);
      Merged(ix', k, merged, rows);
      ix' := Index([], ix'.runs[..k] + [merged]);
    }
  }

  function Sizes(runs: seq<seq<Row>>): seq<nat> {
    seq(|runs|, (i: nat) requires i < |runs| => |runs[i]|)
  }

  function Concat(runs: seq<seq<Row>>): seq<Row> {
    if runs == [] then [] else runs[0] + Concat(runs[1..])
  }

  lemma SameRows(a: seq<Row>, b: seq<Row>)
    requires multiset(a) == multiset(b)
    ensures forall r :: r in a <==> r in b
  {
    forall r
      ensures r in a <==> r in b
    {
      assert r in a <==> r in multiset(a);
      assert r in b <==> r in multiset(b);
    }
  }

  lemma Landed(ix: Index, ix': Index, run: seq<Row>, rows: seq<Row>)
    requires Holds(ix, rows) && ix' == Index([], ix.runs + [run]) && Sorted(run)
    requires forall r :: r in run <==> r in ix.page
    ensures Holds(ix', rows)
  {
    hide Sorted;
    forall r
      ensures InRuns(ix'.runs, r) <==> InRuns(ix.runs, r) || r in run
    {
      if InRuns(ix.runs, r) {
        var k :| 0 <= k < |ix.runs| && r in ix.runs[k];
        assert r in ix'.runs[k];
      }
      if r in run {
        assert r in ix'.runs[|ix.runs|];
      }
    }
  }

  lemma {:induction false} ConcatHas(runs: seq<seq<Row>>, r: Row)
    ensures r in Concat(runs) <==> InRuns(runs, r)
  {
    if runs != [] {
      ConcatHas(runs[1..], r);
      if InRuns(runs[1..], r) {
        var k :| 0 <= k < |runs| - 1 && r in runs[1..][k];
        assert r in runs[k + 1];
      }
      if InRuns(runs, r) {
        var k :| 0 <= k < |runs| && r in runs[k];
        assert k > 0 ==> r in runs[1..][k - 1];
      }
    }
  }

  lemma Merged(ix: Index, k: nat, merged: seq<Row>, rows: seq<Row>)
    requires Holds(ix, rows) && k <= |ix.runs| && Sorted(merged)
    requires forall r :: r in merged <==> r in Concat(ix.runs[k..])
    ensures Holds(Index(ix.page, ix.runs[..k] + [merged]), rows)
  {
    hide Sorted, Concat;
    var runs := ix.runs[..k] + [merged];
    forall r
      ensures InRuns(runs, r) <==> InRuns(ix.runs, r)
    {
      ConcatHas(ix.runs[k..], r);
      if InRuns(ix.runs, r) {
        var j :| 0 <= j < |ix.runs| && r in ix.runs[j];
        assert if j < k then r in runs[j] else r in ix.runs[k..][j - k] && runs[k] == merged;
      }
      if InRuns(runs, r) {
        var j :| 0 <= j < |runs| && r in runs[j];
        if j == k {
          var i :| 0 <= i < |ix.runs[k..]| && r in ix.runs[k..][i];
          assert r in ix.runs[k + i];
        } else {
          assert r in ix.runs[j];
        }
      }
    }
  }

  /** One more row: into the page, which is landed when it is full. */
  method Add(ix: Index, r: Row, policy: seq<nat> -> nat, ghost rows: seq<Row>) returns (ix': Index)
    requires Holds(ix, rows)
    ensures Holds(ix', rows + [r])
  {
    hide Sorted;
    ix' := Index(ix.page + [r], ix.runs);
    if |ix'.page| >= PAGE {
      ix' := Flush(ix', policy, rows + [r]);
    }
  }
}
