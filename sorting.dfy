/** `Array.prototype.sort(cmp)` for the comparators the application uses,
    all of the form `cmp(a, b) = key(a) - key(b)`: a key may be missing
    (NaN), and a NaN comparison counts as 0, "equal"
    (section 23.1.3.30.2 of ECMA-262). The sort is stable, which the
    standard has required since ES2019; it is modelled as an insertion sort
    that places each element after every earlier one not greater than it. */
module Sorting {
  import opened JsText
  import opened Seqs

  /** `cmp(a, b) > 0`: `b` must be placed before `a`. */
  predicate Greater<T>(key: T -> Option<real>, a: T, b: T) {
    key(a).Some? && key(b).Some? && key(a).value > key(b).value
  }

  /** Place `x` before the first element that must come after it. */
  function Insert<T>(key: T -> Option<real>, x: T, s: seq<T>): (r: seq<T>)
    ensures multiset(r) == multiset(s) + multiset{x}
    ensures |r| == |s| + 1
  {
    if s == [] then [x]
    else if Greater(key, s[0], x) then [x] + s
    else
      assert s == [s[0]] + s[1..];
      [s[0]] + Insert(key, x, s[1..])
  }

  /** The sorted sequence: a rearrangement of `s`. */
  function Sort<T>(key: T -> Option<real>, s: seq<T>): (r: seq<T>)
    ensures multiset(r) == multiset(s)
    ensures |r| == |s|
  {
    if s == [] then []
    else
      assert s == s[..|s| - 1] + [s[|s| - 1]];
      Insert(key, s[|s| - 1], Sort(key, s[..|s| - 1]))
  }

  /** Every element has a key: no comparison is NaN. */
  predicate AllKeyed<T>(key: T -> Option<real>, s: seq<T>) {
    forall i :: 0 <= i < |s| ==> key(s[i]).Some?
  }

  /** No element compares greater than one after it. */
  predicate SortedBy<T>(key: T -> Option<real>, s: seq<T>) {
    forall i, j :: 0 <= i < j < |s| ==> !Greater(key, s[i], s[j])
  }

  /** The sort keeps the elements: each output element is an input element
      and each input element is in the output. */
  lemma SortKeepsElements<T>(key: T -> Option<real>, s: seq<T>)
    ensures var r := Sort(key, s);
      && (forall i :: 0 <= i < |r| ==> r[i] in s)
      && (forall i :: 0 <= i < |s| ==> s[i] in r)
  {
    var r := Sort(key, s);
    forall i | 0 <= i < |r| ensures r[i] in s {
      assert r[i] in multiset(r);
    }
    forall i | 0 <= i < |s| ensures s[i] in r {
      assert s[i] in multiset(s);
    }
  }

  /** The sorted sequence has the same members as the input. */
  lemma SortSameMembers<T>(key: T -> Option<real>, s: seq<T>, x: T)
    ensures x in Sort(key, s) <==> x in s
  {
    assert x in multiset(Sort(key, s)) <==> x in multiset(s);
  }

  /** A property every input element has, every output element has. */
  lemma SortKeepsProperty<T>(key: T -> Option<real>, s: seq<T>, holds: T -> bool)
    requires forall i :: 0 <= i < |s| ==> holds(s[i])
    ensures forall i :: 0 <= i < |Sort(key, s)| ==> holds(Sort(key, s)[i])
  {
    SortKeepsElements(key, s);
    forall i | 0 <= i < |Sort(key, s)| ensures holds(Sort(key, s)[i]) {
      var k :| 0 <= k < |s| && s[k] == Sort(key, s)[i];
    }
  }

  /** Each element of `Insert(key, x, s)` is `x` or an element of `s`. */
  lemma InsertMembers<T>(key: T -> Option<real>, x: T, s: seq<T>)
    ensures forall i :: 0 <= i < |Insert(key, x, s)| ==>
      Insert(key, x, s)[i] == x || Insert(key, x, s)[i] in s
  {
    var r := Insert(key, x, s);
    forall i | 0 <= i < |r| ensures r[i] == x || r[i] in s {
      assert r[i] in multiset(r);
    }
  }

  lemma {:induction false} InsertSorted<T>(key: T -> Option<real>, x: T, s: seq<T>)
    requires SortedBy(key, s) && AllKeyed(key, s) && key(x).Some?
    ensures SortedBy(key, Insert(key, x, s))
    decreases |s|
  {
    if s == [] {
    } else if Greater(key, s[0], x) {
      var r := [x] + s;
      forall i, j | 0 <= i < j < |r| ensures !Greater(key, r[i], r[j]) {
        if i == 0 {
          assert r[j] == s[j - 1];
          assert j - 1 == 0 || !Greater(key, s[0], s[j - 1]);
        } else {
          assert r[i] == s[i - 1] && r[j] == s[j - 1];
        }
      }
    } else {
      var tail := s[1..];
      assert SortedBy(key, tail) by {
        forall i, j | 0 <= i < j < |tail| ensures !Greater(key, tail[i], tail[j]) {
          assert tail[i] == s[i + 1] && tail[j] == s[j + 1];
        }
      }
      assert AllKeyed(key, tail) by {
        forall i | 0 <= i < |tail| ensures key(tail[i]).Some? {
          assert tail[i] == s[i + 1];
        }
      }
      InsertSorted(key, x, tail);
      var rest := Insert(key, x, tail);
      InsertMembers(key, x, tail);
      var r := [s[0]] + rest;
      forall i, j | 0 <= i < j < |r| ensures !Greater(key, r[i], r[j]) {
        if i == 0 {
          assert r[j] == rest[j - 1];
          if rest[j - 1] != x {
            var k :| 0 <= k < |tail| && tail[k] == rest[j - 1];
            assert tail[k] == s[k + 1];
          }
        } else {
          assert r[i] == rest[i - 1] && r[j] == rest[j - 1];
        }
      }
    }
  }

  /** With no NaN comparison, the result is in key order. */
  lemma {:induction false} SortIsSorted<T>(key: T -> Option<real>, s: seq<T>)
    requires AllKeyed(key, s)
    ensures SortedBy(key, Sort(key, s))
    decreases |s|
  {
    if s != [] {
      var init := s[..|s| - 1];
      assert AllKeyed(key, init) by {
        forall i | 0 <= i < |init| ensures key(init[i]).Some? {
          assert init[i] == s[i];
        }
      }
      SortIsSorted(key, init);
      var sorted := Sort(key, init);
      SortKeepsElements(key, init);
      assert AllKeyed(key, sorted) by {
        forall i | 0 <= i < |sorted| ensures key(sorted[i]).Some? {
          var j :| 0 <= j < |init| && init[j] == sorted[i];
        }
      }
      InsertSorted(key, s[|s| - 1], sorted);
    }
  }

  /** Inserting past a head that does not compare greater. */
  lemma InsertStep<T>(key: T -> Option<real>, x: T, s: seq<T>)
    requires s != [] && !Greater(key, s[0], x)
    ensures Insert(key, x, s) == [s[0]] + Insert(key, x, s[1..])
  {
  }

  lemma HeadAndTailOfConcat<T>(a: seq<T>, b: seq<T>)
    requires a != []
    ensures (a + b)[0] == a[0] && (a + b)[1..] == a[1..] + b
    ensures [a[0]] + (a[1..] + b) == a + b
  {
    assert a == [a[0]] + a[1..];
  }

  /** Inserting past a run none of whose elements compares greater. */
  lemma {:induction false} InsertPast<T>(key: T -> Option<real>, x: T, a: seq<T>, b: seq<T>)
    requires forall i :: 0 <= i < |a| ==> !Greater(key, a[i], x)
    ensures Insert(key, x, a + b) == a + Insert(key, x, b)
    decreases |a|
  {
    if a == [] {
      assert a + b == b;
    } else {
      var tail := a[1..];
      assert forall i :: 0 <= i < |tail| ==> !Greater(key, tail[i], x) by {
        forall i | 0 <= i < |tail| ensures !Greater(key, tail[i], x) {
          assert tail[i] == a[i + 1];
        }
      }
      InsertPast(key, x, tail, b);
      HeadAndTailOfConcat(a, b);
      InsertStep(key, x, a + b);
      HeadAndTailOfConcat(a, Insert(key, x, b));
    }
  }

  lemma ConcatAssoc<T>(a: seq<T>, b: seq<T>, c: seq<T>)
    ensures a + (b + c) == a + b + c
  {
  }

  /** An element that sorts before the head goes first. */
  lemma InsertAtFront<T>(key: T -> Option<real>, x: T, b: seq<T>)
    requires b == [] || Greater(key, b[0], x)
    ensures Insert(key, x, b) == [x] + b
  {
  }

  /** Inserting an element of the group at key -1 into that group
      followed by the rest at key 0: it ends its group. */
  lemma InsertIntoFirstGroup<T>(key: T -> Option<real>, x: T, fs: seq<T>, ns: seq<T>)
    requires forall i :: 0 <= i < |fs| ==> key(fs[i]) == Some(-1.0)
    requires forall i :: 0 <= i < |ns| ==> key(ns[i]) == Some(0.0)
    requires key(x) == Some(-1.0)
    ensures Insert(key, x, fs + ns) == fs + [x] + ns
  {
    InsertPast(key, x, fs, ns);
    InsertAtFront(key, x, ns);
    ConcatAssoc(fs, [x], ns);
  }

  /** Inserting an element at key 0 puts it last. */
  lemma InsertIntoSecondGroup<T>(key: T -> Option<real>, x: T, fs: seq<T>, ns: seq<T>)
    requires forall i :: 0 <= i < |fs| ==> key(fs[i]) == Some(-1.0)
    requires forall i :: 0 <= i < |ns| ==> key(ns[i]) == Some(0.0)
    requires key(x) == Some(0.0)
    ensures Insert(key, x, fs + ns) == fs + (ns + [x])
  {
    InsertPast(key, x, fs, ns);
    InsertPast(key, x, ns, []);
    InsertAtFront(key, x, []);
    assert ns + [] == ns;
  }

  /** The element `x` appended to the input of a two-group sort joins the
      end of its group. */
  lemma TwoGroupsStep<T>(key: T -> Option<real>, init: seq<T>, x: T, first: T -> bool, second: T -> bool)
    requires Sort(key, init) == Filter(init, first) + Filter(init, second)
    requires forall i :: 0 <= i < |Filter(init, first)| ==> key(Filter(init, first)[i]) == Some(-1.0)
    requires forall i :: 0 <= i < |Filter(init, second)| ==> key(Filter(init, second)[i]) == Some(0.0)
    requires key(x) == Some(if first(x) then -1.0 else 0.0) && second(x) == !first(x)
    ensures Sort(key, init + [x]) == Filter(init + [x], first) + Filter(init + [x], second)
  {
    var s := init + [x];
    assert s[..|s| - 1] == init;
    var fs := Filter(init, first);
    var ns := Filter(init, second);
    FilterSnoc(init, x, first);
    FilterSnoc(init, x, second);
    assert Sort(key, s) == Insert(key, x, fs + ns);
    if first(x) {
      InsertIntoFirstGroup(key, x, fs, ns);
      assert ns + [] == ns;
    } else {
      InsertIntoSecondGroup(key, x, fs, ns);
      assert fs + [] == fs;
    }
  }

  /** Sorting on a key that puts one group (key -1) before the rest (key 0)
      lists the group first and the rest after, each in input order: the
      sort is stable. */
  lemma {:induction false} SortTwoGroups<T>(key: T -> Option<real>, s: seq<T>, first: T -> bool, second: T -> bool)
    requires forall y :: key(y) == Some(if first(y) then -1.0 else 0.0) && second(y) == !first(y)
    ensures Sort(key, s) == Filter(s, first) + Filter(s, second)
    decreases |s|
  {
    if s != [] {
      var init := s[..|s| - 1];
      var x := s[|s| - 1];
      assert s == init + [x];
      SortTwoGroups(key, init, first, second);
      var fs := Filter(init, first);
      var ns := Filter(init, second);
      forall i | 0 <= i < |fs| ensures key(fs[i]) == Some(-1.0) {
        assert first(fs[i]);
      }
      forall i | 0 <= i < |ns| ensures key(ns[i]) == Some(0.0) {
        assert second(ns[i]);
      }
      TwoGroupsStep(key, init, x, first, second);
    }
  }
}
