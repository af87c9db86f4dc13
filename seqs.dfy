/** Order-preserving filtering over sequences, the `Array.prototype.filter`
    that every listing of the application goes through, the first-match
    search behind `find`, and `slice(0, n)`. */
module Seqs {
  import opened JsText

  /** `s.filter(keep)`: the elements that pass, in their original order. */
  function Filter<T>(s: seq<T>, keep: T -> bool): (r: seq<T>)
    ensures |r| <= |s|
    ensures forall i :: 0 <= i < |r| ==> r[i] in s && keep(r[i])
    ensures forall i :: 0 <= i < |s| && keep(s[i]) ==> s[i] in r
    ensures multiset(r) <= multiset(s)
  {
    if s == [] then []
    else
      var rest := Filter(s[1..], keep);
      FilterStep(s, keep, rest);
      (if keep(s[0]) then [s[0]] else []) + rest
  }

  /** The step of `Filter`: putting the verdict on the head in front of the
      filtered tail keeps the contract. */
  lemma FilterStep<T>(s: seq<T>, keep: T -> bool, rest: seq<T>)
    requires s != []
    requires |rest| <= |s| - 1 && multiset(rest) <= multiset(s[1..])
    requires forall i :: 0 <= i < |rest| ==> rest[i] in s[1..] && keep(rest[i])
    requires forall i :: 0 <= i < |s| - 1 && keep(s[1..][i]) ==> s[1..][i] in rest
    ensures var r := (if keep(s[0]) then [s[0]] else []) + rest;
      && |r| <= |s|
      && (forall i :: 0 <= i < |r| ==> r[i] in s && keep(r[i]))
      && (forall i :: 0 <= i < |s| && keep(s[i]) ==> s[i] in r)
      && multiset(r) <= multiset(s)
  {
    var head := if keep(s[0]) then [s[0]] else [];
    var r := head + rest;
    assert s == [s[0]] + s[1..];
    assert multiset(s) == multiset{s[0]} + multiset(s[1..]);
    forall i | 0 <= i < |r| ensures r[i] in s && keep(r[i]) {
      if i >= |head| {
        assert r[i] == rest[i - |head|];
      }
    }
    forall i | 0 <= i < |s| && keep(s[i]) ensures s[i] in r {
      if i > 0 {
        assert s[i] == s[1..][i - 1];
      }
    }
  }

  /** Filtering a concatenation filters each part: the kept elements stay
      in the order they had. */
  lemma {:induction false} FilterConcat<T>(a: seq<T>, b: seq<T>, keep: T -> bool)
    ensures Filter(a + b, keep) == Filter(a, keep) + Filter(b, keep)
    decreases |a|
  {
    if a == [] {
      assert a + b == b;
    } else {
      assert (a + b)[1..] == a[1..] + b;
      FilterConcat(a[1..], b, keep);
    }
  }

  /** An element is in the filtered sequence exactly when it is in the
      input and passes. */
  lemma FilterMember<T>(s: seq<T>, keep: T -> bool, x: T)
    ensures x in Filter(s, keep) <==> x in s && keep(x)
  {
    var r := Filter(s, keep);
    if x in r {
      var j :| 0 <= j < |r| && r[j] == x;
    }
    if x in s && keep(x) {
      var j :| 0 <= j < |s| && s[j] == x;
    }
  }

  /** A filter that every element passes keeps the sequence as it is. */
  lemma {:induction false} FilterKeepsAll<T>(s: seq<T>, keep: T -> bool)
    requires forall i :: 0 <= i < |s| ==> keep(s[i])
    ensures Filter(s, keep) == s
    decreases |s|
  {
    if s != [] {
      FilterKeepsAll(s[1..], keep);
    }
  }

  /** Two filters in a row are one filter on the conjunction. */
  lemma {:induction false} FilterTwice<T>(s: seq<T>, first: T -> bool, second: T -> bool)
    ensures Filter(Filter(s, first), second) == Filter(s, x => first(x) && second(x))
    decreases |s|
  {
    if s != [] {
      FilterTwice(s[1..], first, second);
      var head := if first(s[0]) then [s[0]] else [];
      FilterConcat(head, Filter(s[1..], first), second);
    }
  }

  /** Filters with the same verdict on every element agree. */
  lemma {:induction false} FilterSameVerdict<T>(s: seq<T>, a: T -> bool, b: T -> bool)
    requires forall i :: 0 <= i < |s| ==> a(s[i]) == b(s[i])
    ensures Filter(s, a) == Filter(s, b)
    decreases |s|
  {
    if s != [] {
      FilterSameVerdict(s[1..], a, b);
    }
  }

  /** Filtering a sequence with one more element. */
  lemma FilterSnoc<T>(s: seq<T>, x: T, keep: T -> bool)
    ensures Filter(s + [x], keep) == Filter(s, keep) + (if keep(x) then [x] else [])
  {
    FilterConcat(s, [x], keep);
    FilterSingle(x, keep);
  }

  /** Filtering one element. */
  lemma FilterSingle<T>(x: T, keep: T -> bool)
    ensures Filter([x], keep) == if keep(x) then [x] else []
  {
    var one := [x];
    assert one[0] == x && one[1..] == [];
    assert Filter(one, keep) == (if keep(one[0]) then [one[0]] else []) + Filter(one[1..], keep);
  }

  /** A filter stage that runs only when its option is set. */
  function FilterIf<T>(on: bool, s: seq<T>, keep: T -> bool): seq<T> {
    if on then Filter(s, keep) else s
  }

  /** A switchable stage after a filter is one filter; `both` is the
      conjunction of the two verdicts. */
  lemma FilterIfAfterFilter<T>(s: seq<T>, prev: T -> bool, on: bool, keep: T -> bool, both: T -> bool)
    requires forall i :: 0 <= i < |s| ==> both(s[i]) == (prev(s[i]) && (!on || keep(s[i])))
    ensures FilterIf(on, Filter(s, prev), keep) == Filter(s, both)
  {
    if on {
      FilterTwice(s, prev, keep);
      FilterSameVerdict(s, x => prev(x) && keep(x), both);
    } else {
      FilterSameVerdict(s, prev, both);
    }
  }

  /** Index-wise membership both ways gives membership both ways. */
  lemma MembersExactly<T>(r: seq<T>, s: seq<T>, keep: T -> bool)
    requires forall i :: 0 <= i < |r| ==> r[i] in s && keep(r[i])
    requires forall i :: 0 <= i < |s| && keep(s[i]) ==> s[i] in r
    ensures forall x :: x in r <==> x in s && keep(x)
  {
    forall x | x in s && keep(x) ensures x in r {
      var i :| 0 <= i < |s| && s[i] == x;
    }
    forall x | x in r ensures x in s && keep(x) {
      var i :| 0 <= i < |r| && r[i] == x;
    }
  }

  /** `s.findIndex(hit)`: the index of the first element that passes. */
  function FindFirst<T>(s: seq<T>, hit: T -> bool): (r: Option<nat>)
    ensures r.Some? ==> r.value < |s| && hit(s[r.value])
    ensures r.Some? ==> forall j :: 0 <= j < r.value ==> !hit(s[j])
    ensures r.None? <==> forall j :: 0 <= j < |s| ==> !hit(s[j])
  {
    if s == [] then None
    else if hit(s[0]) then Some(0)
    else
      match FindFirst(s[1..], hit)
      case None => None
      case Some(k) => Some(k + 1)
  }

  /** `s.slice(0, n)`. */
  function Take<T>(s: seq<T>, n: nat): seq<T> {
    if |s| < n then s else s[..n]
  }
}
