/**
  The stable sort of the platform's list type, which every ranking of the system rests on.
 */
module StableSort {
  import opened Basics

  ghost predicate TotalPreorder<T(!new)>(le: (T, T) -> bool) {
    && (forall a, b :: le(a, b) || le(b, a))
    && (forall a, b, c :: le(a, b) && le(b, c) ==> le(a, c))
  }

  /** `x` goes in front of everything it may precede. */
  function Insert<T>(x: T, t: seq<T>, le: (T, T) -> bool): (r: seq<T>) {
    if t == [] || le(x, t[0]) then [x] + t else [t[0]] + Insert(x, t[1..], le)
  }

  function Sort<T>(s: seq<T>, le: (T, T) -> bool): (r: seq<T>) {
    if s == [] then [] else Insert(s[0], Sort(s[1..], le), le)
  }

  predicate Sorted<T>(s: seq<T>, le: (T, T) -> bool) {
    forall i, j | 0 <= i < j < |s| :: le(s[i], s[j])
  }

  predicate Distinct<T(==)>(s: seq<T>) {
    forall i, j | 0 <= i < j < |s| :: s[i] != s[j]
  }

  /** The first element with property `p`. */
  function First<T>(s: seq<T>, p: T -> bool): (r: Option<T>) {
    if s == [] then None else if p(s[0]) then Some(s[0]) else First(s[1..], p)
  }

  /** Position `i` holds the element that `p` and the order select: no element with `p` comes
      before it in the order, and of its equals it stands first. */
  predicate Leads<T>(s: seq<T>, le: (T, T) -> bool, p: T -> bool, i: nat) {
    && i < |s| && p(s[i])
    && forall j | 0 <= j < |s| && p(s[j]) :: le(s[i], s[j]) && (j < i ==> !le(s[j], s[i]))
  }

  lemma {:induction false} InsertHolds<T(!new)>(x: T, t: seq<T>, le: (T, T) -> bool)
    ensures |Insert(x, t, le)| == |t| + 1
    ensures forall y :: y in Insert(x, t, le) <==> y == x || y in t
    ensures x !in t && Distinct(t) ==> Distinct(Insert(x, t, le))
  {
    if t != [] && !le(x, t[0]) {
      var tail := Insert(x, t[1..], le);
      InsertHolds(x, t[1..], le);
      assert forall y :: y in t <==> y == t[0] || y in t[1..];
      if x !in t && Distinct(t) {
        assert t[0] !in tail && Distinct(tail);
        assert forall j | 0 <= j < |tail| :: tail[j] in tail;
      }
    } else if x !in t {
      assert forall j | 0 <= j < |t| :: t[j] in t;
    }
  }

  lemma {:induction false} InsertIsSorted<T(!new)>(x: T, t: seq<T>, le: (T, T) -> bool)
    requires TotalPreorder(le) && Sorted(t, le)
    ensures Sorted(Insert(x, t, le), le)
  {
    var r := Insert(x, t, le);
    if t != [] && !le(x, t[0]) {
      var tail := Insert(x, t[1..], le);
      InsertIsSorted(x, t[1..], le);
      InsertHolds(x, t[1..], le);
      forall j | 0 <= j < |tail|
        ensures le(t[0], tail[j])
      {
        assert tail[j] in tail;
      }
      assert forall i | 0 < i < |r| :: r[i] == tail[i - 1];
    } else {
      assert forall j | 0 < j < |t| :: le(t[0], t[j]);
    }
  }

  /** Sorting neither loses, invents nor repeats an element. */
  lemma {:induction false} SortHolds<T(!new)>(s: seq<T>, le: (T, T) -> bool)
    ensures |Sort(s, le)| == |s|
    ensures forall y :: y in Sort(s, le) <==> y in s
    ensures Distinct(s) ==> Distinct(Sort(s, le))
    ensures TotalPreorder(le) ==> Sorted(Sort(s, le), le)
  {
    if s != [] {
      SortHolds(s[1..], le);
      InsertHolds(s[0], Sort(s[1..], le), le);
      if TotalPreorder(le) {
        InsertIsSorted(s[0], Sort(s[1..], le), le);
      }
      assert forall y :: y in s <==> y == s[0] || y in s[1..];
    }
  }

  lemma {:induction false} FirstFinds<T(!new)>(s: seq<T>, p: T -> bool)
    ensures First(s, p).None? <==> forall i | 0 <= i < |s| :: !p(s[i])
    ensures First(s, p).Some? ==> p(First(s, p).value) && First(s, p).value in s
  {
    if s != [] && !p(s[0]) {
      FirstFinds(s[1..], p);
      assert forall i | 0 < i < |s| :: s[i] == s[1..][i - 1];
    }
  }

  lemma {:induction false} FirstOfInsert<T(!new)>(x: T, t: seq<T>, le: (T, T) -> bool, p: T -> bool)
    requires TotalPreorder(le) && Sorted(t, le)
    ensures First(Insert(x, t, le), p) ==
              if p(x) && (First(t, p).None? || le(x, First(t, p).value)) then Some(x) else First(t, p)
  {
    FirstFinds(t, p);
    if t == [] || le(x, t[0]) {
      assert Insert(x, t, le)[1..] == t;
    } else {
      FirstOfInsert(x, t[1..], le, p);
      assert Insert(x, t, le)[1..] == Insert(x, t[1..], le);
    }
  }

  /** Stability: the first element with `p` of the sorted list is the one that leads the
      unsorted list. */
  lemma {:induction false} FirstOfSorted<T(!new)>(s: seq<T>, le: (T, T) -> bool, p: T -> bool) returns (i: nat)
    requires TotalPreorder(le)
    ensures First(Sort(s, le), p).None? <==> forall j | 0 <= j < |s| :: !p(s[j])
    ensures First(Sort(s, le), p).Some? ==> Leads(s, le, p, i) && First(Sort(s, le), p).value == s[i]
  {
    if s == [] {
      return 0;
    }
    i := FirstOfSorted(s[1..], le, p);
    SortHolds(s[1..], le);
    FirstOfInsert(s[0], Sort(s[1..], le), le, p);
    assert forall j | 0 < j < |s| :: s[j] == s[1..][j - 1];
    if First(Sort(s[1..], le), p).None? || (p(s[0]) && le(s[0], s[1..][i])) {
      i := 0;
    } else {
      i := i + 1;
    }
  }
}
