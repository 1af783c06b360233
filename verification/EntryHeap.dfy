/**
  Heaps of keyed entries, as sets with a least element. The entry number makes entries distinct, so
  entries with equal keys come out in insertion order.
 */
module EntryHeap {
  import opened Sequences

  /** A sort key; `Never` sorts behind every number. */
  datatype Key = At(value: real) | Never

  datatype Entry<T> = Entry(key: Key, number: nat, item: T)

  predicate KeyBefore(a: Key, b: Key) {
    a.At? && (b.Never? || a.value < b.value)
  }

  predicate Before<T>(a: Entry<T>, b: Entry<T>) {
    KeyBefore(a.key, b.key) || (a.key == b.key && a.number < b.number)
  }

  ghost predicate Numbered<T(!new)>(h: set<Entry<T>>) {
    forall a, b :: a in h && b in h && a.number == b.number ==> a == b
  }

  ghost predicate IsLeast<T(!new)>(h: set<Entry<T>>, e: Entry<T>) {
    e in h && forall x :: x in h ==> x == e || Before(e, x)
  }

  lemma LeastExists<T(!new)>(h: set<Entry<T>>)
    requires h != {} && Numbered(h)
    ensures exists e :: IsLeast(h, e)
  {
    var x :| x in h;
    var rest := h - {x};
    if rest == {} {
      assert h == {x};
      assert IsLeast(h, x);
    } else {
      LeastExists(rest);
      var e :| IsLeast(rest, e);
      if Before(e, x) {
        assert IsLeast(h, e);
      } else {
        assert e in h && x.number != e.number && Before(x, e);
        forall y | y in h ensures y == x || Before(x, y) {
          assert y != x ==> y in rest;
        }
        assert IsLeast(h, x);
      }
    }
  }

  ghost function Least<T(!new)>(h: set<Entry<T>>): (e: Entry<T>)
    requires h != {} && Numbered(h)
    ensures IsLeast(h, e)
  {
    LeastExists(h);
    var e :| IsLeast(h, e);
    e
  }

  lemma LeastIsUnique<T(!new)>(h: set<Entry<T>>, e: Entry<T>)
    requires h != {} && Numbered(h) && IsLeast(h, e)
    ensures Least(h) == e
  {
  }

  /** The least entry of a heap, as `heappop` returns it. */
  method LeastEntry<T(!new, ==)>(h: set<Entry<T>>) returns (e: Entry<T>)
    requires h != {} && Numbered(h)
    ensures e == Least(h)
  {
    var candidates := h;
    e :| e in candidates;
    candidates := candidates - {e};
    while candidates != {}
      invariant candidates <= h && e in h && e !in candidates
      invariant forall x :: x in h && x !in candidates ==> x == e || Before(e, x)
    {
      var x :| x in candidates;
      if Before(x, e) {
        e := x;
      }
      candidates := candidates - {x};
    }
    LeastIsUnique(h, e);
  }

  /** The entries in the order in which they will be popped. */
  ghost function Sorted<T(!new)>(h: set<Entry<T>>): (s: seq<Entry<T>>)
    requires Numbered(h)
    ensures forall e :: e in s <==> e in h
    ensures |s| == |h|
  {
    if h == {} then []
    else
      var e := Least(h);
      assert h == (h - {e}) + {e};
      [e] + Sorted(h - {e})
  }

  ghost function Items<T>(s: seq<Entry<T>>): (r: seq<T>)
    ensures |r| == |s|
  {
    seq(|s|, i requires 0 <= i < |s| => s[i].item)
  }

  /** Behind every entry that does not come later by key. */
  function InsertByKey<T>(s: seq<Entry<T>>, e: Entry<T>): seq<Entry<T>> {
    if s == [] then [e]
    else if KeyBefore(e.key, s[0].key) then [e] + s
    else [s[0]] + InsertByKey(s[1..], e)
  }

  lemma SortedUnfolds<T(!new)>(h: set<Entry<T>>)
    requires Numbered(h)
    ensures h == {} ==> Sorted(h) == []
    ensures h != {} ==> Sorted(h) == [Least(h)] + Sorted(h - {Least(h)})
  {
  }

  lemma SortedOne<T(!new)>(e: Entry<T>)
    ensures Numbered({e}) && Sorted({e}) == [e]
  {
    LeastIsUnique({e}, e);
    assert {e} - {e} == {};
  }

  lemma InsertUnfolds<T>(first: Entry<T>, rest: seq<Entry<T>>, e: Entry<T>)
    ensures InsertByKey([first] + rest, e) ==
      if KeyBefore(e.key, first.key) then [e] + ([first] + rest) else [first] + InsertByKey(rest, e)
    ensures InsertByKey([], e) == [e]
  {
    assert ([first] + rest)[1..] == rest;
  }

  /** Pushing the newest entry inserts it stably. */
  lemma {:induction false} SortedInsert<T(!new)>(h: set<Entry<T>>, e: Entry<T>)
    requires Numbered(h) && forall x :: x in h ==> x.number < e.number
    ensures Numbered(h + {e}) && Sorted(h + {e}) == InsertByKey(Sorted(h), e)
  {
    hide Sorted, InsertByKey, KeyBefore;
    SortedUnfolds(h);
    if h == {} {
      assert h + {e} == {e};
      SortedOne(e);
      InsertUnfolds(e, [], e);
    } else {
      NewestIsLeastOrNot(h, e);
      var m := Least(h);
      SortedUnfolds(h + {e});
      InsertUnfolds(m, Sorted(h - {m}), e);
      if KeyBefore(e.key, m.key) {
        assert (h + {e}) - {e} == h;
      } else {
        SortedInsert(h - {m}, e);
        assert (h + {e}) - {m} == (h - {m}) + {e};
      }
    }
  }

  lemma NewestIsLeastOrNot<T(!new)>(h: set<Entry<T>>, e: Entry<T>)
    requires h != {} && Numbered(h) && forall x :: x in h ==> x.number < e.number
    ensures Numbered(h + {e}) && Least(h + {e}) == if KeyBefore(e.key, Least(h).key) then e else Least(h)
  {
    var m := Least(h);
    LeastIsUnique(h + {e}, if KeyBefore(e.key, m.key) then e else m);
  }

  lemma {:induction false} SortedRemove<T(!new)>(h: set<Entry<T>>, e: Entry<T>)
    requires Numbered(h)
    ensures Sorted(h - {e}) == Select(Sorted(h), x => x != e)
  {
    if h != {} {
      var m := Least(h);
      SelectCons(m, Sorted(h - {m}), x => x != e);
      if m == e {
        SelectAll(Sorted(h - {m}), x => x != e);
      } else {
        LeastIsUnique(h - {e}, m);
        SortedRemove(h - {m}, e);
        assert (h - {e}) - {m} == (h - {m}) - {e};
      }
    } else {
      assert h - {e} == {};
    }
  }

  /** Sorted output really is sorted, by key and then by insertion. */
  lemma {:induction false} SortedIsSorted<T(!new)>(h: set<Entry<T>>, i: int, j: int)
    requires Numbered(h) && 0 <= i < j < |h|
    ensures Before(Sorted(h)[i], Sorted(h)[j])
  {
    var m := Least(h);
    var rest := Sorted(h - {m});
    if i == 0 {
      assert rest[j - 1] in rest;
    } else {
      SortedIsSorted(h - {m}, i - 1, j - 1);
    }
  }
}
