/**
 The comparison that a balancer update makes twice, once for listeners and once for attached
 groups.  Elements carry a name and a key: the cloud addresses an element by its name, the
 comparison looks only at keys, and which expected elements were found is remembered by name.
 */
module KeyedDiff {
  import opened Seqs

  ghost function Keys<T, K>(xs: seq<T>, key: T -> K): set<K> {
    set x | x in xs :: key(x)
  }

  ghost function FirstMatch<T, K>(x: T, expected: seq<T>, key: T -> K): (m: Option<T>)
    ensures m.Some? ==> m.value in expected && key(m.value) == key(x)
    ensures m.None? <==> key(x) !in Keys(expected, key)
  {
    if expected == [] then None
    else if key(expected[0]) == key(x) then
      assert expected[0] in expected;
      Some(expected[0])
    else
      assert expected == [expected[0]] + expected[1..];
      FirstMatch(x, expected[1..], key)
  }

  /** The names of the expected elements that some actual element matched first. */
  ghost function Found<T, N, K>(actual: seq<T>, expected: seq<T>, name: T -> N, key: T -> K): set<N> {
    set x | x in actual && FirstMatch(x, expected, key).Some? :: name(FirstMatch(x, expected, key).value)
  }

  ghost function Unwanted<T, K>(actual: seq<T>, expected: seq<T>, key: T -> K): seq<T> {
    Filter(actual, x => FirstMatch(x, expected, key).None?)
  }

  ghost function NotNamed<T, N>(expected: seq<T>, found: set<N>, name: T -> N): seq<T> {
    Filter(expected, e => name(e) !in found)
  }

  ghost function Missing<T, N, K>(actual: seq<T>, expected: seq<T>, name: T -> N, key: T -> K): seq<T> {
    NotNamed(expected, Found(actual, expected, name, key), name)
  }

  /** What an update is asked for: names and keys that do not repeat. */
  ghost predicate WellKeyed<T(!new), N(!new), K(!new)>(xs: seq<T>, name: T -> N, key: T -> K) {
    DistinctBy(xs, name) && DistinctBy(xs, key)
  }

  /** The first index whose key agrees is the first match. */
  lemma {:induction false} FirstMatchAt<T, K>(x: T, expected: seq<T>, key: T -> K, j: nat)
    requires j < |expected| && key(expected[j]) == key(x)
    requires forall i :: 0 <= i < j ==> key(expected[i]) != key(x)
    ensures FirstMatch(x, expected, key) == Some(expected[j])
  {
    if j > 0 {
      FirstMatchAt(x, expected[1..], key, j - 1);
    }
  }

  lemma NotNamedNext<T, N>(expected: seq<T>, i: nat, found: set<N>, name: T -> N)
    requires i < |expected|
    ensures NotNamed(expected[..i + 1], found, name) ==
            NotNamed(expected[..i], found, name) + if name(expected[i]) !in found then [expected[i]] else []
  {
    FilterNext(expected, i, e => name(e) !in found);
  }

  lemma NotNamedMembers<T(!new), N(!new)>(expected: seq<T>, found: set<N>, name: T -> N)
    ensures forall e :: e in NotNamed(expected, found, name) <==> e in expected && name(e) !in found
  {
    forall e ensures e in NotNamed(expected, found, name) <==> e in expected && name(e) !in found {
      FilterMembers(expected, e => name(e) !in found, e);
    }
  }

  lemma NotNamedNone<T, N>(expected: seq<T>, found: set<N>, name: T -> N)
    requires forall e :: e in expected ==> name(e) in found
    ensures NotNamed(expected, found, name) == []
  {
    FilterNone(expected, e => name(e) !in found);
  }

  /** What each comparison gains from one more actual element. */
  lemma UnwantedNext<T(!new), N(!new), K(!new)>(actual: seq<T>, i: nat, expected: seq<T>, name: T -> N, key: T -> K)
    requires i < |actual|
    ensures var m := FirstMatch(actual[i], expected, key);
            && Unwanted(actual[..i + 1], expected, key) ==
               Unwanted(actual[..i], expected, key) + (if m.None? then [actual[i]] else [])
            && Found(actual[..i + 1], expected, name, key) ==
               Found(actual[..i], expected, name, key) + (if m.None? then {} else {name(m.value)})
  {
    FilterNext(actual, i, x => FirstMatch(x, expected, key).None?);
    var before, after := Found(actual[..i], expected, name, key), Found(actual[..i + 1], expected, name, key);
    assert actual[..i + 1] == actual[..i] + [actual[i]];
    if FirstMatch(actual[i], expected, key).Some? {
      assert actual[i] in actual[..i + 1];
    }
    forall n | n in before ensures n in after {
      var x :| x in actual[..i] && FirstMatch(x, expected, key).Some? && name(FirstMatch(x, expected, key).value) == n;
      assert x in actual[..i + 1];
    }
  }

  /** With well-keyed specs the name-keyed bookkeeping decides the same as comparing keys. */
  lemma FoundByKey<T(!new), N(!new), K(!new)>(actual: seq<T>, expected: seq<T>, name: T -> N, key: T -> K, e: T)
    requires WellKeyed(expected, name, key) && e in expected
    ensures name(e) in Found(actual, expected, name, key) <==> key(e) in Keys(actual, key)
  {
    if x :| x in actual && key(x) == key(e) {
      var m := FirstMatch(x, expected, key).value;
      assert m == e;
      assert x in actual && FirstMatch(x, expected, key).Some?;
    }
    if name(e) in Found(actual, expected, name, key) {
      var x :| x in actual && FirstMatch(x, expected, key).Some? && name(FirstMatch(x, expected, key).value) == name(e);
      assert FirstMatch(x, expected, key).value == e;
    }
  }

  lemma MissingByKey<T(!new), N(!new), K(!new)>(actual: seq<T>, expected: seq<T>, name: T -> N, key: T -> K)
    requires WellKeyed(expected, name, key)
    ensures Missing(actual, expected, name, key) == Filter(expected, e => key(e) !in Keys(actual, key))
  {
    forall e | e in expected
      ensures name(e) !in Found(actual, expected, name, key) <==> key(e) !in Keys(actual, key)
    {
      FoundByKey(actual, expected, name, key, e);
    }
    FilterSame(expected, e => name(e) !in Found(actual, expected, name, key), e => key(e) !in Keys(actual, key));
  }

  lemma FoundDependsOnKeys<T(!new), N(!new), K(!new)>(a: seq<T>, b: seq<T>, expected: seq<T>, name: T -> N, key: T -> K)
    requires WellKeyed(expected, name, key)
    requires forall e :: e in expected ==> (key(e) in Keys(a, key) <==> key(e) in Keys(b, key))
    ensures Found(a, expected, name, key) == Found(b, expected, name, key)
  {
    FoundAreExpected(a, expected, name, key);
    FoundAreExpected(b, expected, name, key);
    forall e | e in expected
      ensures name(e) in Found(a, expected, name, key) <==> name(e) in Found(b, expected, name, key)
    {
      FoundByKey(a, expected, name, key, e);
      FoundByKey(b, expected, name, key, e);
    }
  }

  lemma FoundAreExpected<T(!new), N(!new), K(!new)>(actual: seq<T>, expected: seq<T>, name: T -> N, key: T -> K)
    ensures forall n :: n in Found(actual, expected, name, key) ==> exists e :: e in expected && name(e) == n
  {
    forall n | n in Found(actual, expected, name, key) ensures exists e :: e in expected && name(e) == n {
      var x :| x in actual && FirstMatch(x, expected, key).Some? && name(FirstMatch(x, expected, key).value) == n;
    }
  }

  /** Once the first unwanted element is gone, a new comparison finds exactly the rest to do. */
  lemma ResumeAfterRemove<T(!new), N(!new), K(!new)>(actual: seq<T>, expected: seq<T>, name: T -> N, key: T -> K)
    requires WellKeyed(expected, name, key) && DistinctBy(actual, name)
    requires Unwanted(actual, expected, key) != []
    ensures var next := WithoutName(actual, name, name(Unwanted(actual, expected, key)[0]));
            && Unwanted(next, expected, key) == Unwanted(actual, expected, key)[1..]
            && Missing(next, expected, name, key) == Missing(actual, expected, name, key)
            && Found(next, expected, name, key) == Found(actual, expected, name, key)
  {
    var p := x => FirstMatch(x, expected, key).None?;
    var todo := Filter(actual, p);
    assert todo == Unwanted(actual, expected, key);
    var u := todo[0];
    var q := x => name(x) != name(u);
    var next := WithoutName(actual, name, name(u));
    FilterSame(actual, x => name(x) != name(u), q);
    FilterCommute(actual, p, q);
    FilterDistinctBy(actual, p, name);
    DropHead(todo, name);
    FilterSame(todo, q, x => name(x) != name(u));
    FilterSame(next, p, x => FirstMatch(x, expected, key).None?);

    FilterMembers(actual, p, u);
    forall e | e in expected ensures key(e) in Keys(next, key) <==> key(e) in Keys(actual, key) {
      forall x ensures x in next <==> x in actual && name(x) != name(u) { FilterMembers(actual, q, x); }
      if x :| x in actual && key(x) == key(e) {
        assert x != u;
        assert x in next;
      }
    }
    FoundDependsOnKeys(next, actual, expected, name, key);
  }

  /** Once the first missing element is there, a new comparison finds exactly the rest to do. */
  lemma ResumeAfterAdd<T(!new), N(!new), K(!new)>(actual: seq<T>, expected: seq<T>, name: T -> N, key: T -> K)
    requires WellKeyed(expected, name, key)
    requires Unwanted(actual, expected, key) == [] && Missing(actual, expected, name, key) != []
    ensures var next := actual + [Missing(actual, expected, name, key)[0]];
            && Unwanted(next, expected, key) == []
            && Missing(next, expected, name, key) == Missing(actual, expected, name, key)[1..]
  {
    var todo := Missing(actual, expected, name, key);
    var m := todo[0];
    var next := actual + [m];
    FilterMembers(expected, e => name(e) !in Found(actual, expected, name, key), m);
    FilterAppend(actual, [m], x => FirstMatch(x, expected, key).None?);
    assert key(m) in Keys(expected, key);

    MissingByKey(actual, expected, name, key);
    MissingByKey(next, expected, name, key);
    var p := e => key(e) !in Keys(actual, key);
    var q := e => key(e) != key(m);
    assert Keys(next, key) == Keys(actual, key) + {key(m)};
    FilterSame(expected, e => key(e) !in Keys(next, key), e => p(e) && q(e));
    FilterTwice(expected, p, q);
    FilterSame(expected, p, e => key(e) !in Keys(actual, key));
    FilterDistinctBy(expected, p, key);
    DropHead(todo, key);
    FilterSame(todo, q, e => key(e) != key(m));
  }

  /** Nothing to do exactly when the two sides have the same keys. */
  lemma DoneIffSameKeys<T(!new), N(!new), K(!new)>(actual: seq<T>, expected: seq<T>, name: T -> N, key: T -> K)
    requires WellKeyed(expected, name, key)
    ensures Unwanted(actual, expected, key) == [] && Missing(actual, expected, name, key) == []
       <==> Keys(actual, key) == Keys(expected, key)
  {
    var p := x => FirstMatch(x, expected, key).None?;
    MissingByKey(actual, expected, name, key);
    var q := e => key(e) !in Keys(actual, key);
    FilterSame(expected, q, e => key(e) !in Keys(actual, key));
    forall x ensures x in Filter(actual, p) <==> x in actual && p(x) { FilterMembers(actual, p, x); }
    forall x ensures x in Filter(expected, q) <==> x in expected && q(x) { FilterMembers(expected, q, x); }
    if Keys(actual, key) == Keys(expected, key) {
      FilterNone(actual, p);
      FilterNone(expected, q);
    } else if Unwanted(actual, expected, key) == [] && Missing(actual, expected, name, key) == [] {
      forall x | x in actual ensures key(x) in Keys(expected, key) { assert !p(x); }
      forall e | e in expected ensures key(e) in Keys(actual, key) { assert !q(e); }
    }
  }

  /** Everything that survives the removals carries the key of an expected element. */
  lemma KeptAreExpected<T(!new), K(!new)>(actual: seq<T>, expected: seq<T>, key: T -> K)
    requires Unwanted(actual, expected, key) == []
    ensures Keys(actual, key) <= Keys(expected, key)
  {
    forall x | x in actual ensures key(x) in Keys(expected, key) {
      FilterMembers(actual, x => FirstMatch(x, expected, key).None?, x);
    }
  }

  /** A projection that depends on the key only and never repeats among the expected elements is
      free for the next missing element once the removals are done. */
  lemma MissingIsFresh<T(!new), N(!new), K(!new), S(!new)>(actual: seq<T>, expected: seq<T>, name: T -> N, key: T -> K,
                                                           slot: T -> S)
    requires WellKeyed(expected, name, key) && DistinctBy(expected, slot)
    requires forall x, y :: key(x) == key(y) ==> slot(x) == slot(y)
    requires Unwanted(actual, expected, key) == []
    ensures forall m, x :: m in Missing(actual, expected, name, key) && x in actual ==> slot(m) != slot(x)
  {
    KeptAreExpected(actual, expected, key);
    MissingByKey(actual, expected, name, key);
    var q := e => key(e) !in Keys(actual, key);
    forall m, x | m in Missing(actual, expected, name, key) && x in actual ensures slot(m) != slot(x) {
      FilterMembers(expected, q, m);
      assert key(x) in Keys(expected, key);
      var e :| e in expected && key(e) == key(x);
      assert key(x) in Keys(actual, key);
      assert e != m;
    }
  }

  lemma {:induction false} KeysSize<T(!new), K(!new)>(xs: seq<T>, key: T -> K)
    requires DistinctBy(xs, key)
    ensures |Keys(xs, key)| == |xs|
  {
    if xs != [] {
      KeysSize(xs[1..], key);
      assert xs == [xs[0]] + xs[1..];
      assert Keys(xs, key) == {key(xs[0])} + Keys(xs[1..], key);
      assert key(xs[0]) !in Keys(xs[1..], key);
    }
  }

  /** How far the two sides are apart: keys on one side only. */
  ghost function Gap<K>(a: set<K>, b: set<K>): nat {
    |a - b| + |b - a|
  }

  /** There is one thing to do per key that only one side has. */
  lemma WorkIsDistance<T(!new), N(!new), K(!new)>(actual: seq<T>, expected: seq<T>, name: T -> N, key: T -> K)
    requires WellKeyed(expected, name, key) && DistinctBy(actual, key)
    ensures |Unwanted(actual, expected, key)| + |Missing(actual, expected, name, key)|
         == Gap(Keys(actual, key), Keys(expected, key))
  {
    var p := x => FirstMatch(x, expected, key).None?;
    var q := e => key(e) !in Keys(actual, key);
    MissingByKey(actual, expected, name, key);
    FilterSame(expected, q, e => key(e) !in Keys(actual, key));
    FilterDistinctBy(actual, p, key);
    FilterDistinctBy(expected, q, key);
    KeysSize(Filter(actual, p), key);
    KeysSize(Filter(expected, q), key);
    KeysOfFilter(actual, p, key);
    KeysOfFilter(expected, q, key);
    assert Keys(Filter(actual, p), key) == Keys(actual, key) - Keys(expected, key);
    assert Keys(Filter(expected, q), key) == Keys(expected, key) - Keys(actual, key);
  }

  lemma KeysOfFilter<T(!new), K(!new)>(xs: seq<T>, p: T -> bool, key: T -> K)
    ensures Keys(Filter(xs, p), key) == set x | x in xs && p(x) :: key(x)
  {
    forall x ensures x in Filter(xs, p) <==> x in xs && p(x) { FilterMembers(xs, p, x); }
  }

  lemma UnwantedMembers<T(!new), K(!new)>(actual: seq<T>, expected: seq<T>, key: T -> K)
    ensures forall x :: x in Unwanted(actual, expected, key) <==> x in actual && key(x) !in Keys(expected, key)
  {
    forall x ensures x in Unwanted(actual, expected, key) <==> x in actual && key(x) !in Keys(expected, key) {
      FilterMembers(actual, x => FirstMatch(x, expected, key).None?, x);
    }
  }

  lemma MissingMembers<T(!new), N(!new), K(!new)>(actual: seq<T>, expected: seq<T>, name: T -> N, key: T -> K)
    requires WellKeyed(expected, name, key)
    ensures forall e :: e in Missing(actual, expected, name, key) <==> e in expected && key(e) !in Keys(actual, key)
    ensures DistinctBy(Missing(actual, expected, name, key), name)
  {
    var q := e => key(e) !in Keys(actual, key);
    MissingByKey(actual, expected, name, key);
    FilterSame(expected, q, e => key(e) !in Keys(actual, key));
    FilterDistinctBy(expected, q, name);
    forall e ensures e in Missing(actual, expected, name, key) <==> e in expected && key(e) !in Keys(actual, key) {
      FilterMembers(expected, q, e);
    }
  }

  lemma NothingUnwanted<T(!new), K(!new)>(actual: seq<T>, expected: seq<T>, key: T -> K)
    requires forall x :: x in actual ==> key(x) in Keys(expected, key)
    ensures Unwanted(actual, expected, key) == []
  {
    FilterNone(actual, x => FirstMatch(x, expected, key).None?);
  }

  /** When every key but one is there and another expected element bears that one's name, nothing
      seems to be missing. */
  lemma HiddenByName<T(!new), N(!new), K(!new)>(actual: seq<T>, expected: seq<T>, name: T -> N, key: T -> K, i: nat,
                                                j: nat)
    requires DistinctBy(expected, key) && i < |expected| && j < |expected| && i != j
    requires name(expected[i]) == name(expected[j])
    requires Keys(actual, key) == Keys(expected, key) - {key(expected[j])}
    ensures Unwanted(actual, expected, key) == [] && Missing(actual, expected, name, key) == []
  {
    forall x | x in actual ensures key(x) in Keys(expected, key) { assert key(x) in Keys(actual, key); }
    NothingUnwanted(actual, expected, key);
    forall e | e in expected ensures name(e) in Found(actual, expected, name, key) {
      var k :| 0 <= k < |expected| && expected[k] == e;
      FoundUnlessKeyless(actual, expected, name, key, if k == j then i else k);
    }
    NotNamedNone(expected, Found(actual, expected, name, key), name);
  }

  lemma FoundUnlessKeyless<T(!new), N(!new), K(!new)>(actual: seq<T>, expected: seq<T>, name: T -> N, key: T -> K,
                                                      k: nat)
    requires DistinctBy(expected, key) && k < |expected| && key(expected[k]) in Keys(actual, key)
    ensures name(expected[k]) in Found(actual, expected, name, key)
  {
    var x :| x in actual && key(x) == key(expected[k]);
    FirstMatchAt(x, expected, key, k);
  }

  lemma NotNamedDistinct<T(!new), N(!new)>(expected: seq<T>, found: set<N>, name: T -> N)
    requires DistinctBy(expected, name)
    ensures DistinctBy(NotNamed(expected, found, name), name)
  {
    FilterDistinctBy(expected, e => name(e) !in found, name);
  }

  /** Finding the first element not found so far leaves the others. */
  lemma NotNamedRest<T(!new), N(!new)>(expected: seq<T>, found: set<N>, name: T -> N)
    requires DistinctBy(expected, name) && NotNamed(expected, found, name) != []
    ensures NotNamed(expected, found + {name(NotNamed(expected, found, name)[0])}, name) ==
            NotNamed(expected, found, name)[1..]
  {
    var rest := NotNamed(expected, found, name);
    var n := name(rest[0]);
    var p, q := e => name(e) !in found, e => name(e) != n;
    FilterSame(expected, e => name(e) !in found + {n}, e => p(e) && q(e));
    FilterTwice(expected, p, q);
    FilterSame(expected, p, e => name(e) !in found);
    NotNamedDistinct(expected, found, name);
    DropHead(rest, name);
    FilterSame(rest, q, e => name(e) != n);
  }

  /** The first match among the expected elements that qualify. */
  lemma {:induction false} FirstMatchAmong<T, K>(x: T, expected: seq<T>, ok: T -> bool, key: T -> K, j: nat)
    requires j < |expected| && ok(expected[j]) && key(expected[j]) == key(x)
    requires forall i :: 0 <= i < j ==> !(ok(expected[i]) && key(expected[i]) == key(x))
    ensures FirstMatch(x, Filter(expected, ok), key) == Some(expected[j])
  {
    if j > 0 {
      FirstMatchAmong(x, expected[1..], ok, key, j - 1);
    }
    if ok(expected[0]) {
      assert Filter(expected, ok)[1..] == Filter(expected[1..], ok);
    } else {
      assert Filter(expected, ok) == Filter(expected[1..], ok);
    }
  }

  lemma {:induction false} NoMatchAmong<T, K>(x: T, expected: seq<T>, ok: T -> bool, key: T -> K)
    requires forall e :: e in expected ==> !(ok(e) && key(e) == key(x))
    ensures FirstMatch(x, Filter(expected, ok), key) == None
  {
    if expected != [] {
      NoMatchAmong(x, expected[1..], ok, key);
      if ok(expected[0]) {
        assert Filter(expected, ok)[1..] == Filter(expected[1..], ok);
      } else {
        assert Filter(expected, ok) == Filter(expected[1..], ok);
      }
    }
  }
}
