/** Shared vocabulary: bytes, results, and a few facts about filtering sequences. */
module Common {

  type Byte = x: int | 0 <= x < 256

  datatype Option<+T> = None | Some(value: T)

  ghost predicate NoDup<T>(s: seq<T>) {
    forall i, j | 0 <= i < j < |s| :: s[i] != s[j]
  }

  /** The elements of `s` that are in `keep`, in order. */
  ghost function Filter<T>(s: seq<T>, keep: set<T>): (r: seq<T>) {
    if s == [] then []
    else if s[0] in keep then [s[0]] + Filter(s[1..], keep)
    else Filter(s[1..], keep)
  }

  lemma {:induction false} FilterElements<T>(s: seq<T>, keep: set<T>)
    ensures |Filter(s, keep)| <= |s|
    ensures forall x | x in Filter(s, keep) :: x in s && x in keep
    ensures forall x | x in s && x in keep :: x in Filter(s, keep)
  {
    if s != [] {
      FilterElements(s[1..], keep);
    }
  }

  lemma FilterCons<T>(x: T, s: seq<T>, keep: set<T>)
    ensures Filter([x] + s, keep) == (if x in keep then [x] else []) + Filter(s, keep)
  {
    assert ([x] + s)[1..] == s;
  }

  lemma FilterSnoc<T>(s: seq<T>, x: T, keep: set<T>)
    ensures Filter(s + [x], keep) == if x in keep then Filter(s, keep) + [x] else Filter(s, keep)
  {
    FilterConcat(s, [x], keep);
    FilterCons(x, [], keep);
    assert [x] + [] == [x];
  }

  lemma {:induction false} FilterConcat<T>(a: seq<T>, b: seq<T>, keep: set<T>)
    ensures Filter(a + b, keep) == Filter(a, keep) + Filter(b, keep)
  {
    if a == [] {
      assert a + b == b;
    } else {
      assert (a + b)[1..] == a[1..] + b;
      FilterConcat(a[1..], b, keep);
    }
  }

  lemma {:induction false} FilterAgree<T>(s: seq<T>, p: set<T>, q: set<T>)
    requires forall x | x in s :: x in p <==> x in q
    ensures Filter(s, p) == Filter(s, q)
  {
    if s != [] {
      FilterAgree(s[1..], p, q);
    }
  }

  lemma {:induction false} FilterAll<T>(s: seq<T>, keep: set<T>)
    requires forall x | x in s :: x in keep
    ensures Filter(s, keep) == s
  {
    if s != [] {
      FilterAll(s[1..], keep);
    }
  }

  lemma {:induction false} FilterTwice<T>(s: seq<T>, p: set<T>, q: set<T>)
    ensures Filter(Filter(s, p), q) == Filter(s, p * q)
  {
    if s != [] {
      FilterTwice(s[1..], p, q);
      if s[0] in p {
        assert Filter(s, p)[1..] == Filter(s[1..], p);
      }
    }
  }

  lemma {:induction false} FilterNoDup<T>(s: seq<T>, keep: set<T>)
    requires NoDup(s)
    ensures NoDup(Filter(s, keep))
  {
    if s != [] {
      assert forall x | x in s[1..] :: x != s[0];
      FilterElements(s[1..], keep);
      FilterNoDup(s[1..], keep);
    }
  }

  lemma {:induction false} FilterNone<T>(s: seq<T>, keep: set<T>)
    requires forall x | x in s :: x !in keep
    ensures Filter(s, keep) == []
  {
    if s != [] {
      FilterNone(s[1..], keep);
    }
  }
}
