/** Facts about duplicate-free sequences, filtering and reversal that the other modules share. */
module Sequences {

  ghost predicate NoDup<T(!new)>(s: seq<T>) {
    forall i, j :: 0 <= i < j < |s| ==> s[i] != s[j]
  }

  /** The elements of `s`, as a set. */
  ghost function Elems<T(!new)>(s: seq<T>): (r: set<T>)
    ensures forall x :: x in r <==> x in s
  {
    set x | x in s
  }

  lemma NoDupCardinality<T(!new)>(s: seq<T>)
    requires NoDup(s)
    ensures |Elems(s)| == |s|
  {
    if s != [] {
      var rest := s[..|s| - 1];
      NoDupCardinality(rest);
      assert s == rest + [s[|s| - 1]];
      assert Elems(s) == Elems(rest) + {s[|s| - 1]};
      assert s[|s| - 1] !in rest;
    } else {
      assert Elems(s) == {};
    }
  }

  lemma SubsetCardinality<T>(a: set<T>, b: set<T>)
    requires a <= b
    ensures |a| <= |b|
    ensures |a| == |b| ==> a == b
  {
    assert b == a + (b - a);
    assert |b| == |a| + |b - a|;
    if |a| == |b| {
      assert b - a == {};
    }
  }

  /** A duplicate-free sequence drawn from `universe` is no longer than it. */
  lemma NoDupBound<T(!new)>(s: seq<T>, universe: set<T>)
    requires NoDup(s) && forall x :: x in s ==> x in universe
    ensures |s| <= |universe|
    ensures |s| == |universe| ==> Elems(s) == universe
  {
    NoDupCardinality(s);
    SubsetCardinality(Elems(s), universe);
  }

  lemma NoDupAppend<T(!new)>(s: seq<T>, x: T)
    requires NoDup(s) && x !in s
    ensures NoDup(s + [x])
  {
  }

  /** The elements of `s` that lie in `keep`, in the order of `s`. */
  function Select<T(!new)>(s: seq<T>, keep: T -> bool): (r: seq<T>)
    ensures forall x :: x in r <==> x in s && keep(x)
  {
    if s == [] then []
    else
      var rest := Select(s[..|s| - 1], keep);
      var x := s[|s| - 1];
      assert s == s[..|s| - 1] + [x];
      if keep(x) then rest + [x] else rest
  }

  lemma SelectSnoc<T(!new)>(s: seq<T>, x: T, keep: T -> bool)
    ensures Select(s + [x], keep) == if keep(x) then Select(s, keep) + [x] else Select(s, keep)
  {
    assert (s + [x])[..|s|] == s;
  }

  lemma {:induction false} SelectConcat<T(!new)>(a: seq<T>, b: seq<T>, keep: T -> bool)
    ensures Select(a + b, keep) == Select(a, keep) + Select(b, keep)
  {
    if b == [] {
      assert a + b == a;
    } else {
      var front := b[..|b| - 1];
      var x := b[|b| - 1];
      SelectConcat(a, front, keep);
      assert a + b == (a + front) + [x];
      SelectSnoc(a + front, x, keep);
    }
  }

  lemma {:induction false} SelectNoDup<T(!new)>(s: seq<T>, keep: T -> bool)
    requires NoDup(s)
    ensures NoDup(Select(s, keep))
  {
    if s != [] {
      SelectNoDup(s[..|s| - 1], keep);
    }
  }

  lemma {:induction false} SelectSame<T(!new)>(s: seq<T>, f: T -> bool, g: T -> bool)
    requires forall x :: x in s ==> f(x) == g(x)
    ensures Select(s, f) == Select(s, g)
  {
    if s != [] {
      SelectSame(s[..|s| - 1], f, g);
    }
  }

  lemma {:induction false} SelectAll<T(!new)>(s: seq<T>, keep: T -> bool)
    requires forall x :: x in s ==> keep(x)
    ensures Select(s, keep) == s
  {
    if s != [] {
      SelectAll(s[..|s| - 1], keep);
      assert s == s[..|s| - 1] + [s[|s| - 1]];
    }
  }

  lemma {:induction false} SelectTwice<T(!new)>(s: seq<T>, f: T -> bool, g: T -> bool, both: T -> bool)
    requires forall x :: both(x) == (f(x) && g(x))
    ensures Select(Select(s, f), g) == Select(s, both)
  {
    if s != [] {
      var front, x := s[..|s| - 1], s[|s| - 1];
      SelectTwice(front, f, g, both);
      if f(x) {
        SelectSnoc(Select(front, f), x, g);
      }
    }
  }

  lemma {:induction false} SelectCons<T(!new)>(x: T, s: seq<T>, keep: T -> bool)
    ensures Select([x] + s, keep) == (if keep(x) then [x] else []) + Select(s, keep)
  {
    if s == [] {
      assert [x] + s == [] + [x];
    } else {
      var front, last := s[..|s| - 1], s[|s| - 1];
      SelectCons(x, front, keep);
      assert [x] + s == ([x] + front) + [last];
      SelectSnoc([x] + front, last, keep);
    }
  }

  lemma {:induction false} SelectNone<T(!new)>(s: seq<T>, keep: T -> bool)
    requires forall x :: x in s ==> !keep(x)
    ensures Select(s, keep) == []
  {
    if s != [] {
      SelectNone(s[..|s| - 1], keep);
      assert s[|s| - 1] in s;
    }
  }

  /** The first selected element is the first one to be kept. */
  lemma {:induction false} SelectFirst<T(!new)>(s: seq<T>, keep: T -> bool) returns (i: nat)
    requires Select(s, keep) != []
    ensures i < |s| && s[i] == Select(s, keep)[0] && forall j :: 0 <= j < i ==> !keep(s[j])
  {
    var front, x := s[..|s| - 1], s[|s| - 1];
    if Select(front, keep) != [] {
      i := SelectFirst(front, keep);
    } else {
      i := |s| - 1;
      forall j | 0 <= j < i ensures !keep(s[j]) {
        assert s[j] == front[j] && front[j] in front;
      }
    }
  }

  function Reverse<T>(s: seq<T>): (r: seq<T>)
    ensures |r| == |s|
    ensures forall i :: 0 <= i < |s| ==> r[i] == s[|s| - 1 - i]
  {
    if s == [] then [] else Reverse(s[1..]) + [s[0]]
  }
}
