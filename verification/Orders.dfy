/** Sequences in strict order, for any order. */
module Orders {

  ghost predicate Ordered<T>(less: (T, T) -> bool, s: seq<T>) {
    forall i, j :: 0 <= i < j < |s| ==> less(s[i], s[j])
  }

  /** The item comes before all of these. */
  ghost predicate Leads<T>(less: (T, T) -> bool, first: T, rest: seq<T>) {
    forall i :: 0 <= i < |rest| ==> less(first, rest[i])
  }

  ghost predicate Asymmetric<T(!new)>(less: (T, T) -> bool) {
    forall x, y :: less(x, y) ==> !less(y, x)
  }

  ghost predicate Transitive<T(!new)>(less: (T, T) -> bool) {
    forall x, y, z :: less(x, y) && less(y, z) ==> less(x, z)
  }

  lemma {:induction false} LeadsByTransitivity<T(!new)>(less: (T, T) -> bool, item: T, s: seq<T>)
    requires Ordered(less, s) && Transitive(less) && s != [] && less(item, s[0])
    ensures Leads(less, item, s)
  {
  }

  lemma {:induction false} LeadsMembers<T>(less: (T, T) -> bool, first: T, rest: seq<T>, item: T, more: seq<T>)
    requires Leads(less, first, rest) && less(first, item) && forall x <- more :: x in rest || x == item
    ensures Leads(less, first, more)
  {
    forall i | 0 <= i < |more|
      ensures less(first, more[i])
    {
      assert more[i] in more;
    }
  }

  lemma {:induction false} PrependKeepsOrder<T>(less: (T, T) -> bool, first: T, rest: seq<T>)
    requires Ordered(less, rest) && Leads(less, first, rest)
    ensures Ordered(less, [first] + rest)
  {
  }

  lemma {:induction false} TailIsOrdered<T>(less: (T, T) -> bool, s: seq<T>)
    requires Ordered(less, s) && s != []
    ensures Ordered(less, s[1..]) && Leads(less, s[0], s[1..])
  {
  }

  lemma {:induction false} TailMembers<T(!new)>(less: (T, T) -> bool, s: seq<T>, x: T)
    requires Ordered(less, s) && s != [] && Asymmetric(less)
    ensures x in s[1..] <==> x in s && x != s[0]
  {
    TailIsOrdered(less, s);
    assert s == [s[0]] + s[1..];
  }

  lemma {:induction false} SameFirst<T(!new)>(less: (T, T) -> bool, s: seq<T>, t: seq<T>)
    requires Ordered(less, s) && Ordered(less, t) && Asymmetric(less) && s != [] && t != []
    requires forall x :: x in s <==> x in t
    ensures s[0] == t[0]
  {
    assert s[0] in t && t[0] in s;
    var j :| 0 <= j < |t| && t[j] == s[0];
    var i :| 0 <= i < |s| && s[i] == t[0];
  }

  /** Strictly ordered sequences with the same members are equal, so any correct sort gives this result. */
  lemma {:induction false} OrderedIsUnique<T(!new)>(less: (T, T) -> bool, s: seq<T>, t: seq<T>)
    requires Ordered(less, s) && Ordered(less, t) && Asymmetric(less) && forall x :: x in s <==> x in t
    ensures s == t
    decreases |s|
  {
    assert t != [] ==> t[0] in t;
    if s != [] {
      assert s[0] in t;
      SameFirst(less, s, t);
      forall x
        ensures x in s[1..] <==> x in t[1..]
      {
        TailMembers(less, s, x);
        TailMembers(less, t, x);
      }
      TailIsOrdered(less, s);
      TailIsOrdered(less, t);
      OrderedIsUnique(less, s[1..], t[1..]);
      assert s == [s[0]] + s[1..] && t == [t[0]] + t[1..];
    }
  }

  function Insert<T>(less: (T, T) -> bool, sorted: seq<T>, item: T): seq<T> {
    if sorted == [] || less(item, sorted[0]) then [item] + sorted
    else [sorted[0]] + Insert(less, sorted[1..], item)
  }

  function Sorted<T(!new)>(less: (T, T) -> bool, items: seq<T>): (sorted: seq<T>)
    ensures forall x :: x in sorted <==> x in items
    ensures |sorted| == |items|
  {
    if items == [] then []
    else
      var rest := Sorted(less, items[1..]);
      InsertKeeps(less, rest, items[0]);
      Insert(less, rest, items[0])
  }

  lemma {:induction false} InsertKeeps<T(!new)>(less: (T, T) -> bool, sorted: seq<T>, item: T)
    ensures forall x :: x in Insert(less, sorted, item) <==> x in sorted || x == item
    ensures |Insert(less, sorted, item)| == |sorted| + 1
    decreases |sorted|
  {
    if sorted != [] && !less(item, sorted[0]) {
      InsertKeeps(less, sorted[1..], item);
    }
  }

  ghost predicate Comparable<T>(less: (T, T) -> bool, items: seq<T>) {
    forall i, j :: 0 <= i < j < |items| ==> less(items[i], items[j]) || less(items[j], items[i])
  }

  lemma {:induction false} InsertIsOrdered<T(!new)>(less: (T, T) -> bool, sorted: seq<T>, item: T)
    requires Ordered(less, sorted) && Transitive(less)
    requires forall x <- sorted :: less(item, x) || less(x, item)
    ensures Ordered(less, Insert(less, sorted, item))
    decreases |sorted|
  {
    if sorted == [] {
      PrependKeepsOrder(less, item, []);
    } else {
      var head, rest := sorted[0], sorted[1..];
      TailIsOrdered(less, sorted);
      if less(item, head) {
        LeadsByTransitivity(less, item, sorted);
        PrependKeepsOrder(less, item, sorted);
      } else {
        InsertIsOrdered(less, rest, item);
        InsertKeeps(less, rest, item);
        LeadsMembers(less, head, rest, item, Insert(less, rest, item));
        PrependKeepsOrder(less, head, Insert(less, rest, item));
      }
    }
  }

  lemma {:induction false} SortedIsOrdered<T(!new)>(less: (T, T) -> bool, items: seq<T>)
    requires Transitive(less) && Comparable(less, items)
    ensures Ordered(less, Sorted(less, items))
    decreases |items|
  {
    if items != [] {
      var head, rest := items[0], items[1..];
      SortedIsOrdered(less, rest);
      forall x <- Sorted(less, rest)
        ensures less(head, x) || less(x, head)
      {
        var k :| 0 <= k < |rest| && rest[k] == x;
        assert rest[k] == items[k + 1];
      }
      InsertIsOrdered(less, Sorted(less, rest), head);
    }
  }

  function Filtered<T>(s: seq<T>, keep: T -> bool): seq<T> {
    if s == [] then [] else (if keep(s[0]) then [s[0]] else []) + Filtered(s[1..], keep)
  }

  lemma {:induction false} FilteredMembers<T(!new)>(s: seq<T>, keep: T -> bool)
    ensures forall x :: x in Filtered(s, keep) <==> x in s && keep(x)
  {
    if s != [] {
      FilteredMembers(s[1..], keep);
      assert s == [s[0]] + s[1..];
    }
  }

  lemma {:induction false} FilteredIsOrdered<T(!new)>(less: (T, T) -> bool, s: seq<T>, keep: T -> bool)
    requires Ordered(less, s)
    ensures Ordered(less, Filtered(s, keep))
  {
    if s != [] {
      var rest := s[1..];
      TailIsOrdered(less, s);
      FilteredIsOrdered(less, rest, keep);
      FilteredMembers(rest, keep);
      var kept := Filtered(rest, keep);
      forall i | 0 <= i < |kept|
        ensures less(s[0], kept[i])
      {
        assert kept[i] in kept;
        var k :| 0 <= k < |rest| && rest[k] == kept[i];
      }
      PrependKeepsOrder(less, s[0], kept);
    }
  }
}
