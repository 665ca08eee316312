/** The canonical topological order of the commit graph.
  *
  * A commit graph maps every commit id to the set of all its ancestors.  The order
  * repeatedly takes the ready commit (no ancestor left) with the smallest id, so it
  * depends on the graph alone, never on the order in which commits arrived.
  */
module TopoOrder {
  import opened Common

  type Dag = map<nat, set<nat>>

  ghost predicate IsDag(g: Dag) {
    forall c {:trigger DagAt(g, c)} | c in g :: DagAt(g, c)
  }

  /** The ancestors of `c` are commits of the graph, not `c` itself, and bring their own ancestors. */
  ghost predicate DagAt(g: Dag, c: nat)
    requires c in g
  {
    && g[c] <= g.Keys
    && c !in g[c]
    && forall a | a in g[c] :: g[a] <= g[c]
  }

  /** `a` contains the ancestors of each of its members. */
  ghost predicate Closed(g: Dag, a: set<nat>) {
    a <= g.Keys && forall c | c in a :: g[c] <= a
  }

  ghost predicate Ready(g: Dag, todo: set<nat>, c: nat)
    requires todo <= g.Keys
  {
    c in todo && forall a | a in g[c] :: a !in todo
  }

  /** The commit taken next: ready, and the smallest id among the ready ones. */
  ghost predicate IsNext(g: Dag, todo: set<nat>, m: nat)
    requires todo <= g.Keys
  {
    Ready(g, todo, m) && forall c | Ready(g, todo, c) :: m <= c
  }

  lemma SomeReadyBelow(g: Dag, todo: set<nat>, c: nat) returns (r: nat)
    requires IsDag(g) && todo <= g.Keys && c in todo
    ensures Ready(g, todo, r)
    decreases g[c]
  {
    if a :| a in g[c] && a in todo {
      assert DagAt(g, c) && DagAt(g, a);
      r := SomeReadyBelow(g, todo, a);
    } else {
      r := c;
    }
  }

  lemma LeastReady(g: Dag, todo: set<nat>, r: nat) returns (m: nat)
    requires todo <= g.Keys && Ready(g, todo, r)
    ensures IsNext(g, todo, m)
  {
    if c: nat :| Ready(g, todo, c) && c < r {
      m := LeastReady(g, todo, c);
    } else {
      m := r;
    }
  }

  ghost function Next(g: Dag, todo: set<nat>): (m: nat)
    requires IsDag(g) && todo <= g.Keys && todo != {}
    ensures IsNext(g, todo, m)
  {
    assert exists x :: IsNext(g, todo, x) by {
      var c :| c in todo;
      var r := SomeReadyBelow(g, todo, c);
      var x := LeastReady(g, todo, r);
    }
    var m :| IsNext(g, todo, m);
    m
  }

  /** The canonical order of the commits in `todo`. */
  ghost function Kahn(g: Dag, todo: set<nat>): (s: seq<nat>)
    requires IsDag(g) && todo <= g.Keys
  {
    if todo == {} then []
    else
      var m := Next(g, todo);
      [m] + Kahn(g, todo - {m})
  }

  /** The order lists exactly the commits of `todo`, each once. */
  lemma {:induction false} KahnElements(g: Dag, todo: set<nat>)
    requires IsDag(g) && todo <= g.Keys
    ensures forall c :: c in Kahn(g, todo) <==> c in todo
    ensures NoDup(Kahn(g, todo))
    ensures |Kahn(g, todo)| == |todo|
    decreases |todo|
  {
    if todo != {} {
      var m := Next(g, todo);
      KahnElements(g, todo - {m});
    }
  }

  /** Every commit comes after all its ancestors. */
  lemma {:induction false} KahnCausal(g: Dag, todo: set<nat>, i: nat, j: nat)
    requires IsDag(g) && todo <= g.Keys
    requires i < |Kahn(g, todo)| && j < |Kahn(g, todo)|
    requires Kahn(g, todo)[j] in g && Kahn(g, todo)[i] in g[Kahn(g, todo)[j]]
    ensures i < j
    decreases |todo|
  {
    KahnElements(g, todo);
    var s := Kahn(g, todo);
    assert s[i] in s && s[j] in s;
    var m := Next(g, todo);
    var rest := Kahn(g, todo - {m});
    assert Ready(g, todo, m);
    assert s[0] == m;
    if i > 0 && j > 0 {
      assert s[i] == rest[i - 1] && s[j] == rest[j - 1];
      KahnCausal(g, todo - {m}, i - 1, j - 1);
    }
  }

  lemma NextIs(g: Dag, todo: set<nat>, m: nat)
    requires IsDag(g) && todo <= g.Keys && IsNext(g, todo, m)
    ensures Next(g, todo) == m
  {
  }

  /** `b` has, with each of its pending commits, the pending ancestors of that commit. */
  ghost predicate Keeps(g: Dag, todo: set<nat>, b: set<nat>)
    requires todo <= g.Keys
  {
    forall c, a | c in todo && c in b && a in g[c] && a in todo :: a in b
  }

  lemma NextRestrict(g: Dag, todo: set<nat>, b: set<nat>)
    requires IsDag(g) && todo <= g.Keys && todo != {} && Next(g, todo) in b
    requires Keeps(g, todo, b)
    ensures todo * b != {} && Next(g, todo * b) == Next(g, todo)
  {
    var m := Next(g, todo);
    assert m in todo * b;
    forall c | Ready(g, todo * b, c)
      ensures Ready(g, todo, c)
    {
      assert forall a | a in g[c] && a in todo :: a in todo * b;
    }
    NextIs(g, todo * b, m);
  }

  /** Restriction: dropping the commits outside `b` leaves exactly the order `b` has on its own,
    * as long as `b` keeps the pending ancestors of its members. */
  lemma {:induction false} KahnRestrict(g: Dag, todo: set<nat>, b: set<nat>)
    requires IsDag(g) && todo <= g.Keys
    requires Keeps(g, todo, b)
    ensures Filter(Kahn(g, todo), b) == Kahn(g, todo * b)
    decreases |todo|
  {
    if todo != {} {
      var m := Next(g, todo);
      KahnRestrict(g, todo - {m}, b);
      assert Kahn(g, todo)[0] == m && Kahn(g, todo)[1..] == Kahn(g, todo - {m});
      if m in b {
        NextRestrict(g, todo, b);
        assert (todo - {m}) * b == todo * b - {m};
      } else {
        assert (todo - {m}) * b == todo * b;
      }
    } else {
      assert todo * b == {};
    }
  }

  lemma NextLast(g: Dag, todo: set<nat>, c: nat)
    requires IsDag(g) && todo <= g.Keys && todo != {} && c in g && todo <= g[c]
    ensures Next(g, todo + {c}) == Next(g, todo)
  {
    var m := Next(g, todo);
    assert DagAt(g, c) && DagAt(g, m);
    assert !Ready(g, todo + {c}, c) by {
      assert m in g[c] && m in todo + {c};
    }
    assert c !in g[m];
    forall x | Ready(g, todo + {c}, x)
      ensures m <= x
    {
      assert Ready(g, todo, x);
    }
    assert Ready(g, todo + {c}, m);
    NextIs(g, todo + {c}, m);
  }

  lemma KahnSingle(g: Dag, c: nat)
    requires IsDag(g) && c in g
    ensures Kahn(g, {c}) == [c]
  {
    assert DagAt(g, c);
    NextIs(g, {c}, c);
    assert {c} - {c} == {};
  }

  /** A commit that has all the others for ancestors comes last. */
  lemma {:induction false} KahnLast(g: Dag, todo: set<nat>, c: nat)
    requires IsDag(g) && todo <= g.Keys && c in g && todo <= g[c]
    ensures Kahn(g, todo + {c}) == Kahn(g, todo) + [c]
    decreases |todo|
  {
    if todo == {} {
      assert todo + {c} == {c};
      KahnSingle(g, c);
    } else {
      NextLast(g, todo, c);
      var m := Next(g, todo);
      var all := todo + {c};
      assert all - {m} == (todo - {m}) + {c} by {
        assert m != c;
      }
      KahnLast(g, todo - {m}, c);
      assert Kahn(g, all) == [m] + Kahn(g, all - {m});
    }
  }

  /** The order of `todo` reads the ancestor sets of `todo` only. */
  lemma {:induction false} KahnFrame(g: Dag, h: Dag, todo: set<nat>)
    requires IsDag(g) && IsDag(h) && todo <= g.Keys && todo <= h.Keys
    requires forall c | c in todo :: g[c] == h[c]
    ensures Kahn(g, todo) == Kahn(h, todo)
    decreases |todo|
  {
    if todo != {} {
      var m := Next(g, todo);
      assert forall c :: Ready(g, todo, c) <==> Ready(h, todo, c);
      assert IsNext(h, todo, Next(h, todo));
      KahnFrame(g, h, todo - {m});
    }
  }
}
