/** Facts about filtering and mapping sequences that the other modules share. */
module Seqs {

  datatype Option<+T> = None | Some(value: T)

  function Filter<T>(xs: seq<T>, p: T -> bool): seq<T> {
    if xs == [] then [] else (if p(xs[0]) then [xs[0]] else []) + Filter(xs[1..], p)
  }

  function Map<T, U>(xs: seq<T>, f: T -> U): (ys: seq<U>)
    ensures |ys| == |xs|
    ensures forall i :: 0 <= i < |xs| ==> ys[i] == f(xs[i])
  {
    seq(|xs|, i requires 0 <= i < |xs| => f(xs[i]))
  }

  /** The elements that do not go by the name n. */
  function WithoutName<T, N(==)>(xs: seq<T>, name: T -> N, n: N): seq<T> {
    Filter(xs, x => name(x) != n)
  }

  predicate Distinct<T(==)>(xs: seq<T>) {
    forall i, j :: 0 <= i < j < |xs| ==> xs[i] != xs[j]
  }

  /** No two elements agree on f. */
  predicate DistinctBy<T, U(==)>(xs: seq<T>, f: T -> U) {
    forall i, j :: 0 <= i < j < |xs| ==> f(xs[i]) != f(xs[j])
  }

  lemma {:induction false} FilterMembers<T>(xs: seq<T>, p: T -> bool, x: T)
    ensures x in Filter(xs, p) <==> x in xs && p(x)
  {
    if xs != [] {
      FilterMembers(xs[1..], p, x);
      assert xs == [xs[0]] + xs[1..];
    }
  }

  lemma {:induction false} FilterAppend<T>(xs: seq<T>, ys: seq<T>, p: T -> bool)
    ensures Filter(xs + ys, p) == Filter(xs, p) + Filter(ys, p)
  {
    if xs == [] {
      assert xs + ys == ys;
    } else {
      FilterAppend(xs[1..], ys, p);
      var head := if p(xs[0]) then [xs[0]] else [];
      assert (xs + ys)[1..] == xs[1..] + ys;
      calc {
        Filter(xs + ys, p);
        head + Filter(xs[1..] + ys, p);
        head + (Filter(xs[1..], p) + Filter(ys, p));
        (head + Filter(xs[1..], p)) + Filter(ys, p);
      }
    }
  }

  /** What a loop that has filtered the first i elements gains from the next one. */
  lemma FilterNext<T>(xs: seq<T>, i: nat, p: T -> bool)
    requires i < |xs|
    ensures Filter(xs[..i + 1], p) == Filter(xs[..i], p) + if p(xs[i]) then [xs[i]] else []
  {
    assert xs[..i + 1] == xs[..i] + [xs[i]];
    FilterAppend(xs[..i], [xs[i]], p);
  }

  lemma MapAppend<T, U>(xs: seq<T>, ys: seq<T>, f: T -> U)
    ensures Map(xs + ys, f) == Map(xs, f) + Map(ys, f)
  {
  }

  lemma {:induction false} FilterSame<T>(xs: seq<T>, p: T -> bool, q: T -> bool)
    requires forall x :: x in xs ==> p(x) == q(x)
    ensures Filter(xs, p) == Filter(xs, q)
  {
    if xs != [] {
      FilterSame(xs[1..], p, q);
    }
  }

  lemma {:induction false} FilterAll<T>(xs: seq<T>, p: T -> bool)
    requires forall x :: x in xs ==> p(x)
    ensures Filter(xs, p) == xs
  {
    if xs != [] {
      FilterAll(xs[1..], p);
    }
  }

  lemma {:induction false} FilterNone<T>(xs: seq<T>, p: T -> bool)
    requires forall x :: x in xs ==> !p(x)
    ensures Filter(xs, p) == []
  {
    if xs != [] {
      FilterNone(xs[1..], p);
    }
  }

  lemma {:induction false} FilterCommute<T>(xs: seq<T>, p: T -> bool, q: T -> bool)
    ensures Filter(Filter(xs, p), q) == Filter(Filter(xs, q), p)
  {
    if xs != [] {
      FilterCommute(xs[1..], p, q);
      FilterAppend(if p(xs[0]) then [xs[0]] else [], Filter(xs[1..], p), q);
      FilterAppend(if q(xs[0]) then [xs[0]] else [], Filter(xs[1..], q), p);
    }
  }

  lemma {:induction false} FilterTwice<T>(xs: seq<T>, p: T -> bool, q: T -> bool)
    ensures Filter(Filter(xs, p), q) == Filter(xs, x => p(x) && q(x))
  {
    if xs != [] {
      FilterTwice(xs[1..], p, q);
      FilterAppend(if p(xs[0]) then [xs[0]] else [], Filter(xs[1..], p), q);
    }
  }

  lemma {:induction false} FilterDistinctBy<T, U>(xs: seq<T>, p: T -> bool, f: T -> U)
    requires DistinctBy(xs, f)
    ensures DistinctBy(Filter(xs, p), f)
  {
    if xs != [] {
      FilterDistinctBy(xs[1..], p, f);
      forall x | x in Filter(xs[1..], p) ensures f(x) != f(xs[0]) {
        FilterMembers(xs[1..], p, x);
      }
    }
  }

  lemma WithoutNameMembers<T, N>(xs: seq<T>, name: T -> N, n: N, x: T)
    ensures x in WithoutName(xs, name, n) <==> x in xs && name(x) != n
  {
    FilterMembers(xs, x => name(x) != n, x);
  }

  lemma WithoutNameDistinctBy<T, N, U>(xs: seq<T>, name: T -> N, n: N, f: T -> U)
    requires DistinctBy(xs, f)
    ensures DistinctBy(WithoutName(xs, name, n), f)
  {
    FilterDistinctBy(xs, x => name(x) != n, f);
  }

  /** Dropping the head's name from a sequence distinct by name drops exactly the head. */
  lemma DropHead<T, N>(xs: seq<T>, name: T -> N)
    requires xs != [] && DistinctBy(xs, name)
    ensures WithoutName(xs, name, name(xs[0])) == xs[1..]
  {
    FilterAll(xs[1..], x => name(x) != name(xs[0]));
  }

  lemma NoMembers<T>(xs: seq<T>)
    requires forall x :: x !in xs
    ensures xs == []
  {
    FilterAll(xs, x => true);
    FilterNone(xs, x => true);
  }

  lemma {:induction false} DistinctMultiset<T>(xs: seq<T>, x: T)
    requires Distinct(xs)
    ensures multiset(xs)[x] == if x in xs then 1 else 0
  {
    if xs != [] {
      assert xs == [xs[0]] + xs[1..];
      DistinctMultiset(xs[1..], x);
    }
  }

  /** Sequences without repetition and with the same members are permutations of each other. */
  lemma SameMembersSameMultiset<T>(xs: seq<T>, ys: seq<T>)
    requires Distinct(xs) && Distinct(ys)
    requires forall x :: x in xs <==> x in ys
    ensures multiset(xs) == multiset(ys)
  {
    forall x ensures multiset(xs)[x] == multiset(ys)[x] {
      DistinctMultiset(xs, x);
      DistinctMultiset(ys, x);
    }
  }

  /** Some duplicate-free listing of at most n members of s, as a paged list call returns it. */
  method PickUpTo<T(==)>(s: set<T>, n: nat) returns (xs: seq<T>)
    ensures Distinct(xs) && forall x :: x in xs ==> x in s
    ensures |s| <= n ==> forall x :: x in s ==> x in xs
    ensures |xs| == if |s| <= n then |s| else n
  {
    xs := [];
    var rest := s;
    while rest != {} && |xs| < n
      invariant rest <= s && |xs| + |rest| == |s| && |xs| <= n
      invariant Distinct(xs)
      invariant forall x :: x in xs ==> x in s && x !in rest
      invariant forall x :: x in s ==> x in xs || x in rest
    {
      var x :| x in rest;
      assert x !in xs;
      xs := xs + [x];
      rest := rest - {x};
    }
  }
}
