/**
  Replaying insertions and removals into a duplicate-free list, as recovery does for the queued and
  the delayed task ids. Replaying a log over its own result is not the identity: it is the stable
  partition that moves the ids the log removes at some point behind the ones it never removes.
 */
module OrderedReplay {
  import opened Sequences

  datatype ListOp<T> = Insert(item: T) | Remove(item: T) | Leave

  /** Removes the first occurrence, as a list's own `remove` does. */
  function RemoveFirst<T(==)>(s: seq<T>, x: T): seq<T> {
    if s == [] then []
    else if s[0] == x then s[1..]
    else [s[0]] + RemoveFirst(s[1..], x)
  }

  function ApplyOp<T(==)>(s: seq<T>, op: ListOp<T>): seq<T> {
    match op
    case Insert(x) => if x in s then s else s + [x]
    case Remove(x) => if x in s then RemoveFirst(s, x) else s
    case Leave => s
  }

  function Replay<T(==)>(ops: seq<ListOp<T>>, s: seq<T>): seq<T> {
    if ops == [] then s else ApplyOp(Replay(ops[..|ops| - 1], s), ops[|ops| - 1])
  }

  /** Whether `x` is in the list after replaying `ops` over a list that held it iff `before`. */
  function Member<T(==)>(ops: seq<ListOp<T>>, x: T, before: bool): bool {
    if ops == [] then before
    else if ops[|ops| - 1] == Insert(x) then true
    else if ops[|ops| - 1] == Remove(x) then false
    else Member(ops[..|ops| - 1], x, before)
  }

  /** `ops` removes `x` at some point. */
  predicate Removes<T(==)>(ops: seq<ListOp<T>>, x: T) {
    Remove(x) in ops
  }

  lemma {:induction false} RemoveFirstIsSelect<T(!new)>(s: seq<T>, x: T, keep: T -> bool)
    requires NoDup(s) && forall y :: y in s ==> keep(y) == (y != x)
    ensures RemoveFirst(s, x) == Select(s, keep)
  {
    if s != [] {
      var rest := s[1..];
      assert s == [s[0]] + rest;
      RemoveFirstIsSelect(rest, x, keep);
      SelectCons(s[0], rest, keep);
      if s[0] == x {
        SelectAll(rest, keep);
      }
    }
  }

  lemma ApplyOpIsSound<T(!new)>(s: seq<T>, op: ListOp<T>, x: T)
    requires NoDup(s)
    ensures NoDup(ApplyOp(s, op))
    ensures x in ApplyOp(s, op) <==> op == Insert(x) || (x in s && op != Remove(x))
  {
    if op.Remove? {
      RemoveFirstIsSelect(s, op.item, y => y != op.item);
      SelectNoDup(s, y => y != op.item);
    }
  }

  /** Membership after a replay depends on the last operation on the item, and lists stay duplicate-free. */
  lemma {:induction false} ReplayIsSound<T(!new)>(ops: seq<ListOp<T>>, s: seq<T>)
    requires NoDup(s)
    ensures NoDup(Replay(ops, s))
    ensures forall x :: x in Replay(ops, s) <==> Member(ops, x, x in s)
  {
    if ops != [] {
      var front := Replay(ops[..|ops| - 1], s);
      ReplayIsSound(ops[..|ops| - 1], s);
      forall x {
        ApplyOpIsSound(front, ops[|ops| - 1], x);
      }
      if Replay(ops, s) != [] {
        ApplyOpIsSound(front, ops[|ops| - 1], Replay(ops, s)[0]);
      } else {
        assert NoDup(Replay(ops, s));
      }
    }
  }

  lemma {:induction false} MemberAgain<T>(ops: seq<ListOp<T>>, x: T, before: bool)
    ensures Member(ops, x, Member(ops, x, before)) == Member(ops, x, before)
    ensures !Removes(ops, x) && before ==> Member(ops, x, before)
    ensures Removes(ops, x) ==> Member(ops, x, true) == Member(ops, x, false)
  {
    if ops != [] {
      var front := ops[..|ops| - 1];
      MemberAgain(front, x, before);
      assert ops == front + [ops[|ops| - 1]];
    }
  }

  /** Absorbing an overlap: replaying `ops` twice leaves the same members as replaying them once. */
  lemma ReplayTwiceSameMembers<T(!new)>(ops: seq<ListOp<T>>, s: seq<T>)
    requires NoDup(s)
    ensures forall x :: x in Replay(ops, Replay(ops, s)) <==> x in Replay(ops, s)
  {
    ReplayIsSound(ops, s);
    ReplayIsSound(ops, Replay(ops, s));
    forall x ensures x in Replay(ops, Replay(ops, s)) <==> x in Replay(ops, s) {
      MemberAgain(ops, x, x in s);
    }
  }

  lemma {:induction false} ReplayConcat<T>(a: seq<ListOp<T>>, b: seq<ListOp<T>>, s: seq<T>)
    ensures Replay(a + b, s) == Replay(b, Replay(a, s))
  {
    if b == [] {
      assert a + b == a;
    } else {
      var front := b[..|b| - 1];
      ReplayConcat(a, front, s);
      assert (a + b)[..|a + b| - 1] == a + front;
    }
  }

  // ---------- the order after a replay ----------

  function Kept<T(!new, ==)>(ops: seq<ListOp<T>>, s: seq<T>): seq<T> {
    Select(s, x => !Removes(ops, x))
  }

  function Moved<T(!new, ==)>(ops: seq<ListOp<T>>, s: seq<T>): seq<T> {
    Select(s, x => Removes(ops, x))
  }

  /** What a replay appends behind the items it keeps in place. */
  function Tail<T(==)>(ops: seq<ListOp<T>>, s: seq<T>): seq<T> {
    if ops == [] then []
    else
      var front := ops[..|ops| - 1];
      match ops[|ops| - 1]
      case Insert(x) => if Member(front, x, x in s) then Tail(front, s) else Tail(front, s) + [x]
      case Remove(x) => RemoveFirst(Tail(front, s), x)
      case Leave => Tail(front, s)
  }

  lemma NoDupParts<T(!new)>(a: seq<T>, b: seq<T>)
    requires NoDup(a + b)
    ensures NoDup(a) && NoDup(b) && forall x :: x in a ==> x !in b
  {
    forall i, j | 0 <= i < |a| && 0 <= j < |b| ensures a[i] != b[j] {
      assert (a + b)[i] == a[i] && (a + b)[|a| + j] == b[j];
    }
    forall i, j | 0 <= i < j < |b| ensures b[i] != b[j] {
      assert (a + b)[|a| + i] == b[i] && (a + b)[|a| + j] == b[j];
    }
    forall i, j | 0 <= i < j < |a| ensures a[i] != a[j] {
      assert (a + b)[i] == a[i] && (a + b)[j] == a[j];
    }
  }

  /** Removing an item from a duplicate-free list in two parts. */
  lemma RemoveFromParts<T(!new)>(a: seq<T>, b: seq<T>, x: T)
    requires NoDup(a + b)
    ensures ApplyOp(a + b, Remove(x)) == Select(a, y => y != x) + RemoveFirst(b, x)
  {
    NoDupParts(a, b);
    RemoveFirstIsSelect(a + b, x, y => y != x);
    RemoveFirstIsSelect(b, x, y => y != x);
    SelectConcat(a, b, y => y != x);
    if x !in a + b {
      SelectAll(a + b, y => y != x);
    }
  }

  lemma KeptAfterRemove<T(!new)>(front: seq<ListOp<T>>, x: T, s: seq<T>)
    ensures Kept(front + [Remove(x)], s) == Select(Kept(front, s), y => y != x)
  {
    SelectTwice(s, y => !Removes(front, y), y => y != x, y => !Removes(front + [Remove(x)], y));
  }

  lemma KeptAfterOther<T(!new)>(front: seq<ListOp<T>>, op: ListOp<T>, s: seq<T>)
    requires !op.Remove?
    ensures Kept(front + [op], s) == Kept(front, s) && Moved(front + [op], s) == Moved(front, s)
  {
    SelectSame(s, y => !Removes(front, y), y => !Removes(front + [op], y));
    SelectSame(s, y => Removes(front, y), y => Removes(front + [op], y));
  }

  /** A replayed list is its untouched items in their old order, then the appended tail. */
  lemma {:induction false} ReplayShape<T(!new)>(ops: seq<ListOp<T>>, s: seq<T>)
    requires NoDup(s)
    ensures Replay(ops, s) == Kept(ops, s) + Tail(ops, s)
  {
    if ops == [] {
      SelectAll(s, x => !Removes(ops, x));
    } else {
      var front, op := ops[..|ops| - 1], ops[|ops| - 1];
      assert ops == front + [op];
      ReplayShape(front, s);
      ReplayIsSound(front, s);
      if op.Remove? {
        KeptAfterRemove(front, op.item, s);
        RemoveFromParts(Kept(front, s), Tail(front, s), op.item);
      } else {
        KeptAfterOther(front, op, s);
      }
    }
  }

  lemma {:induction false} TailNoDup<T(!new)>(ops: seq<ListOp<T>>, s: seq<T>)
    requires NoDup(s)
    ensures NoDup(Tail(ops, s))
  {
    ReplayShape(ops, s);
    ReplayIsSound(ops, s);
    NoDupParts(Kept(ops, s), Tail(ops, s));
  }

  /** The tail depends on the list only through its members. */
  lemma {:induction false} TailByMembers<T(!new)>(ops: seq<ListOp<T>>, s: seq<T>, s': seq<T>)
    requires forall x :: x in s <==> x in s'
    ensures Tail(ops, s) == Tail(ops, s')
  {
    if ops != [] {
      TailByMembers(ops[..|ops| - 1], s, s');
    }
  }

  lemma MovedAfterRemove<T(!new)>(front: seq<ListOp<T>>, x: T, t: seq<T>)
    requires NoDup(t)
    ensures Moved(front + [Remove(x)], RemoveFirst(t, x)) == Select(Moved(front, t), y => y != x)
  {
    var ops := front + [Remove(x)];
    RemoveFirstIsSelect(t, x, y => y != x);
    SelectTwice(t, y => y != x, y => Removes(ops, y), y => Removes(front, y) && y != x);
    SelectTwice(t, y => Removes(front, y), y => y != x, y => Removes(front, y) && y != x);
  }

  /** The order of the removed items that came back does not depend on the list at all. */
  lemma {:induction false} MovedTailIsFixed<T(!new)>(ops: seq<ListOp<T>>, s: seq<T>, s': seq<T>)
    requires NoDup(s) && NoDup(s')
    ensures Moved(ops, Tail(ops, s)) == Moved(ops, Tail(ops, s'))
  {
    if ops != [] {
      var front, op := ops[..|ops| - 1], ops[|ops| - 1];
      assert ops == front + [op];
      MovedTailIsFixed(front, s, s');
      TailNoDup(front, s);
      TailNoDup(front, s');
      match op {
        case Remove(x) =>
          MovedAfterRemove(front, x, Tail(front, s));
          MovedAfterRemove(front, x, Tail(front, s'));
        case Insert(x) =>
          KeptAfterOther(front, op, Tail(ops, s));
          KeptAfterOther(front, op, Tail(ops, s'));
          SelectSnoc(Tail(front, s), x, y => Removes(front, y));
          SelectSnoc(Tail(front, s'), x, y => Removes(front, y));
          MemberAgain(front, x, true);
        case Leave =>
          KeptAfterOther(front, op, Tail(front, s));
          KeptAfterOther(front, op, Tail(front, s'));
      }
    }
  }

  /** What a second replay appends are removed items only. */
  lemma SecondTailIsMoved<T(!new)>(ops: seq<ListOp<T>>, s: seq<T>)
    requires NoDup(s)
    ensures var once := Replay(ops, s); Moved(ops, Tail(ops, once)) == Tail(ops, once)
  {
    var once := Replay(ops, s);
    ReplayIsSound(ops, s);
    ReplayIsSound(ops, once);
    ReplayShape(ops, once);
    ReplayTwiceSameMembers(ops, s);
    NoDupParts(Kept(ops, once), Tail(ops, once));
    SelectAll(Tail(ops, once), x => Removes(ops, x));
  }

  /** Replaying a log over its own result moves exactly the items it ever removes to the back, stably. */
  lemma ReplayTwiceIsPartition<T(!new)>(ops: seq<ListOp<T>>, s: seq<T>)
    requires NoDup(s)
    ensures var once := Replay(ops, s); Replay(ops, once) == Kept(ops, once) + Moved(ops, once)
  {
    hide Tail, Replay;
    var once := Replay(ops, s);
    ReplayIsSound(ops, s);
    ReplayShape(ops, s);
    ReplayShape(ops, once);
    SecondTailIsMoved(ops, s);
    MovedTailIsFixed(ops, s, once);
    SelectConcat(Kept(ops, s), Tail(ops, s), x => Removes(ops, x));
    SelectNone(Kept(ops, s), x => Removes(ops, x));
    assert [] + Moved(ops, Tail(ops, s)) == Moved(ops, Tail(ops, s));
  }

  /** In `s` no removed item stands before one that is never removed. */
  ghost predicate RemovedLast<T(!new)>(ops: seq<ListOp<T>>, s: seq<T>) {
    forall i, j :: 0 <= i < j < |s| && Removes(ops, s[i]) ==> Removes(ops, s[j])
  }

  lemma {:induction false} RemovedLastIsPartitioned<T(!new)>(ops: seq<ListOp<T>>, s: seq<T>)
    requires RemovedLast(ops, s)
    ensures Kept(ops, s) + Moved(ops, s) == s
  {
    if s != [] {
      var front, x := s[..|s| - 1], s[|s| - 1];
      RemovedLastIsPartitioned(ops, front);
      assert s == front + [x];
      if !Removes(ops, x) {
        SelectNone(front, y => Removes(ops, y));
      }
    }
  }

  lemma PartitionIsIdentityIff<T(!new)>(ops: seq<ListOp<T>>, s: seq<T>)
    ensures Kept(ops, s) + Moved(ops, s) == s <==> RemovedLast(ops, s)
  {
    if RemovedLast(ops, s) {
      RemovedLastIsPartitioned(ops, s);
    }
    var k := |Kept(ops, s)|;
    if Kept(ops, s) + Moved(ops, s) == s {
      forall m | 0 <= m < |s| ensures Removes(ops, s[m]) <==> k <= m {
        if m < k {
          assert s[m] == Kept(ops, s)[m] && Kept(ops, s)[m] in Kept(ops, s);
        } else {
          assert s[m] == Moved(ops, s)[m - k] && Moved(ops, s)[m - k] in Moved(ops, s);
        }
      }
    }
  }

  // ---------- replaying an overlap, then the rest ----------

  /** The list after replaying `overlap + rest` over the result of `overlap`. */
  lemma OverlapThenRest<T(!new)>(overlap: seq<ListOp<T>>, rest: seq<ListOp<T>>, s: seq<T>)
    requires NoDup(s)
    ensures var once := Replay(overlap, s);
      && (forall x :: x in Replay(overlap + rest, once) <==> x in Replay(rest, once))
      && |Replay(overlap + rest, once)| == |Replay(rest, once)|
      && (Replay(overlap + rest, once) == Replay(rest, once) <==> RemovedLast(overlap, Kept(rest, once)))
  {
    hide Tail, Replay;
    var once := Replay(overlap, s);
    var twice := Replay(overlap, once);
    ReplayIsSound(overlap, s);
    ReplayIsSound(overlap, once);
    ReplayConcat(overlap, rest, once);
    ReplayTwiceSameMembers(overlap, s);
    ReplayIsSound(rest, once);
    ReplayIsSound(rest, twice);
    SameMembersSameLength(Replay(rest, twice), Replay(rest, once));
    ReplayShape(rest, once);
    ReplayShape(rest, twice);
    TailByMembers(rest, once, twice);
    ReplayTwiceIsPartition(overlap, s);
    KeptOfPartition(overlap, rest, once);
    PartitionIsIdentityIff(overlap, Kept(rest, once));
    SameSuffix(Kept(rest, once), Kept(rest, twice), Tail(rest, once));
  }

  lemma SameMembersSameLength<T(!new)>(s: seq<T>, t: seq<T>)
    requires NoDup(s) && NoDup(t) && forall x :: x in s <==> x in t
    ensures |s| == |t|
  {
    NoDupCardinality(s);
    NoDupCardinality(t);
    assert Elems(s) == Elems(t);
  }

  lemma SameSuffix<T(!new)>(a: seq<T>, b: seq<T>, t: seq<T>)
    ensures a + t == b + t <==> a == b
  {
    if a + t == b + t {
      assert |a| == |b|;
      assert a == (a + t)[..|a|] && b == (b + t)[..|b|];
    }
  }

  lemma KeptOfPartition<T(!new)>(overlap: seq<ListOp<T>>, rest: seq<ListOp<T>>, s: seq<T>)
    ensures Kept(rest, Kept(overlap, s) + Moved(overlap, s))
      == Kept(overlap, Kept(rest, s)) + Moved(overlap, Kept(rest, s))
  {
    SelectConcat(Kept(overlap, s), Moved(overlap, s), x => !Removes(rest, x));
    SelectTwice(s, x => !Removes(overlap, x), x => !Removes(rest, x), x => !Removes(overlap, x) && !Removes(rest, x));
    SelectTwice(s, x => !Removes(rest, x), x => !Removes(overlap, x), x => !Removes(overlap, x) && !Removes(rest, x));
    SelectTwice(s, x => Removes(overlap, x), x => !Removes(rest, x), x => Removes(overlap, x) && !Removes(rest, x));
    SelectTwice(s, x => !Removes(rest, x), x => Removes(overlap, x), x => Removes(overlap, x) && !Removes(rest, x));
  }
}
