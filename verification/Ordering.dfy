/** Go's string order, and why sorting by distinct keys gives one canonical list. */
module Ordering {

  /** `a < b` on strings: UTF-8 byte order is code point order. */
  predicate Less(a: string, b: string) {
    b != [] && (a == [] || a[0] < b[0] || (a[0] == b[0] && Less(a[1..], b[1..])))
  }

  lemma {:induction false} LessTransitive(a: string, b: string, c: string)
    requires Less(a, b) && Less(b, c)
    ensures Less(a, c)
  {
    if a != [] && b != [] && a[0] == b[0] == c[0] {
      LessTransitive(a[1..], b[1..], c[1..]);
    }
  }

  lemma {:induction false} LessTrichotomy(a: string, b: string)
    ensures !(Less(a, b) && Less(b, a))
    ensures Less(a, b) || Less(b, a) <==> a != b
  {
    if a != [] && b != [] {
      LessTrichotomy(a[1..], b[1..]);
      assert a == [a[0]] + a[1..] && b == [b[0]] + b[1..];
    }
  }

  /** One string comes before another exactly when it is a proper prefix of it or smaller where they first differ. */
  lemma {:induction false} LessExactly(a: string, b: string)
    ensures Less(a, b) <==>
            exists k :: 0 <= k <= |a| && k < |b| && a[..k] == b[..k] && (k == |a| || a[k] < b[k])
  {
    if a == [] || b == [] || a[0] != b[0] {
      if b != [] && (a == [] || a[0] < b[0]) {
        assert a[..0] == b[..0];
      }
      if k :| 0 < k <= |a| && k < |b| && a[..k] == b[..k] {
        assert a[..k][0] == b[..k][0];
      }
    } else {
      LessExactly(a[1..], b[1..]);
      if Less(a[1..], b[1..]) {
        var k :| 0 <= k <= |a[1..]| && k < |b[1..]| && a[1..][..k] == b[1..][..k]
                 && (k == |a[1..]| || a[1..][k] < b[1..][k]);
        assert a[..k + 1] == [a[0]] + a[1..][..k] && b[..k + 1] == [b[0]] + b[1..][..k];
      }
      if k :| 0 <= k <= |a| && k < |b| && a[..k] == b[..k] && (k == |a| || a[k] < b[k]) {
        assert k > 0;
        assert a[1..][..k - 1] == a[..k][1..] == b[..k][1..] == b[1..][..k - 1];
      }
    }
  }

  /** No later element is smaller than an earlier one: what `sort.Slice` promises. */
  ghost predicate Sorted<T>(xs: seq<T>, key: T -> string) {
    forall i, j :: 0 <= i < j < |xs| ==> !Less(key(xs[j]), key(xs[i]))
  }

  ghost predicate StrictlySorted<T>(xs: seq<T>, key: T -> string) {
    forall i, j :: 0 <= i < j < |xs| ==> Less(key(xs[i]), key(xs[j]))
  }

  ghost predicate DistinctKeys<T>(xs: seq<T>, key: T -> string) {
    forall i, j :: 0 <= i < j < |xs| ==> key(xs[i]) != key(xs[j])
  }

  function Elements<T>(xs: seq<T>): (r: set<T>) {
    set x | x in xs
  }

  lemma ElementsAppend<T>(xs: seq<T>, ys: seq<T>)
    ensures Elements(xs + ys) == Elements(xs) + Elements(ys)
  {
    assert forall x :: x in xs + ys <==> x in xs || x in ys;
  }

  function Insert<T>(x: T, xs: seq<T>, key: T -> string): (r: seq<T>)
    requires Sorted(xs, key)
    ensures Sorted(r, key) && multiset(r) == multiset(xs) + multiset{x}
  {
    if xs == [] then [x]
    else if Less(key(xs[0]), key(x)) then
      var rest := Insert(x, xs[1..], key);
      assert xs == [xs[0]] + xs[1..];
      assert forall y :: y in rest ==> y in multiset(rest);
      assert Sorted([xs[0]] + rest, key) by { HeadBelow(xs[0], x, xs[1..], rest, key); }
      [xs[0]] + rest
    else
      assert Sorted([x] + xs, key) by { HeadNotAbove(x, xs, key); }
      [x] + xs
  }

  lemma HeadBelow<T>(h: T, x: T, tail: seq<T>, rest: seq<T>, key: T -> string)
    requires Less(key(h), key(x)) && Sorted(rest, key) && multiset(rest) == multiset(tail) + multiset{x}
    requires forall i :: 0 <= i < |tail| ==> !Less(key(tail[i]), key(h))
    ensures Sorted([h] + rest, key)
  {
    forall j | 0 <= j < |rest| ensures !Less(key(rest[j]), key(h)) {
      assert rest[j] in multiset(rest);
      LessTrichotomy(key(h), key(x));
    }
  }

  lemma HeadNotAbove<T>(x: T, xs: seq<T>, key: T -> string)
    requires xs != [] && Sorted(xs, key) && !Less(key(xs[0]), key(x))
    ensures Sorted([x] + xs, key)
  {
    forall j | 0 <= j < |xs| ensures !Less(key(xs[j]), key(x)) {
      LessTrichotomy(key(xs[0]), key(x));
      LessTrichotomy(key(xs[0]), key(xs[j]));
      if Less(key(xs[j]), key(x)) && key(xs[0]) != key(xs[j]) && key(xs[0]) != key(x) {
        LessTransitive(key(xs[0]), key(xs[j]), key(x));
      }
    }
  }

  /** `sort.Slice(xs, by key)`. */
  function Sort<T>(xs: seq<T>, key: T -> string): (r: seq<T>)
    ensures Sorted(r, key) && multiset(r) == multiset(xs)
  {
    if xs == [] then [] else
      assert xs == [xs[0]] + xs[1..];
      Insert(xs[0], Sort(xs[1..], key), key)
  }

  /** Sorting keeps the elements and, when the keys are distinct, orders them strictly. */
  lemma {:induction false} SortStrict<T>(xs: seq<T>, key: T -> string)
    requires DistinctKeys(xs, key)
    ensures StrictlySorted(Sort(xs, key), key)
    ensures Elements(Sort(xs, key)) == Elements(xs) && |Sort(xs, key)| == |xs|
  {
    SameBag(Sort(xs, key), xs);
    if xs != [] {
      var t := Sort(xs[1..], key);
      SortStrict(xs[1..], key);
      forall i | 0 <= i < |t| ensures key(t[i]) != key(xs[0]) {
        assert t[i] in Elements(t);
      }
      InsertStrict(xs[0], t, key);
      assert xs == [xs[0]] + xs[1..];
    }
  }

  lemma SameBag<T>(xs: seq<T>, ys: seq<T>)
    requires multiset(xs) == multiset(ys)
    ensures Elements(xs) == Elements(ys) && |xs| == |ys|
  {
    assert |multiset(xs)| == |multiset(ys)|;
    assert forall x :: x in xs <==> x in multiset(xs);
    assert forall x :: x in ys <==> x in multiset(ys);
  }

  lemma {:induction false} InsertStrict<T>(x: T, xs: seq<T>, key: T -> string)
    requires Sorted(xs, key) && StrictlySorted(xs, key)
    requires forall i :: 0 <= i < |xs| ==> key(xs[i]) != key(x)
    ensures StrictlySorted(Insert(x, xs, key), key)
  {
    if xs == [] {
    } else if Less(key(xs[0]), key(x)) {
      var rest := Insert(x, xs[1..], key);
      InsertStrict(x, xs[1..], key);
      forall j | 0 <= j < |rest| ensures Less(key(xs[0]), key(rest[j])) {
        assert rest[j] in multiset(rest);
      }
    } else {
      LessTrichotomy(key(x), key(xs[0]));
      forall j | 0 < j < |xs| ensures Less(key(x), key(xs[j])) {
        LessTransitive(key(x), key(xs[0]), key(xs[j]));
      }
    }
  }

  /** A set has at most one list of its elements in strictly increasing key order. */
  lemma {:induction false} StrictlySortedUnique<T>(xs: seq<T>, ys: seq<T>, key: T -> string)
    requires StrictlySorted(xs, key) && StrictlySorted(ys, key) && Elements(xs) == Elements(ys)
    ensures xs == ys
  {
    assert forall x :: x in xs <==> x in Elements(xs);
    assert forall y :: y in ys <==> y in Elements(ys);
    assert ys != [] ==> ys[0] in ys;
    if xs == [] {
    } else {
      assert xs[0] in ys;
      var i :| 0 <= i < |ys| && ys[i] == xs[0];
      assert ys[0] in xs;
      var j :| 0 <= j < |xs| && xs[j] == ys[0];
      LessTrichotomy(key(xs[0]), key(ys[0]));
      assert xs[0] == ys[0];
      assert Elements(xs[1..]) == Elements(ys[1..]) by {
        TailElements(xs, key);
        TailElements(ys, key);
      }
      StrictlySortedUnique(xs[1..], ys[1..], key);
      assert xs == [xs[0]] + xs[1..] && ys == [ys[0]] + ys[1..];
    }
  }

  lemma TailElements<T>(xs: seq<T>, key: T -> string)
    requires xs != [] && StrictlySorted(xs, key)
    ensures Elements(xs[1..]) == Elements(xs) - {xs[0]}
  {
    forall i | 1 <= i < |xs| ensures xs[i] != xs[0] {
      LessTrichotomy(key(xs[0]), key(xs[i]));
    }
    assert forall x :: x in xs ==> x == xs[0] || x in xs[1..];
  }

  /** A strictly sorted list has as many entries as it has elements. */
  lemma {:induction false} StrictlySortedSize<T>(xs: seq<T>, key: T -> string)
    requires StrictlySorted(xs, key)
    ensures |Elements(xs)| == |xs|
  {
    if xs != [] {
      TailElements(xs, key);
      StrictlySortedSize(xs[1..], key);
    }
  }

  /** The identity key, for `sort.Strings`. */
  function Self(s: string): string { s }

  /** One step after the other, from the left. */
  ghost function Fold<S, X>(s: S, xs: seq<X>, step: (S, X) -> S): S
    decreases |xs|
  {
    if xs == [] then s else Fold(step(s, xs[0]), xs[1..], step)
  }

  ghost predicate Commutes<S(!new), X(!new)>(step: (S, X) -> S) {
    forall s, x, y :: step(step(s, x), y) == step(step(s, y), x)
  }

  lemma FoldFirst<S, X>(s: S, x: X, rest: seq<X>, step: (S, X) -> S)
    ensures Fold(s, [x] + rest, step) == Fold(step(s, x), rest, step)
  {
    assert ([x] + rest)[1..] == rest;
  }

  lemma {:induction false} FoldToFront<S(!new), X(!new)>(s: S, before: seq<X>, x: X, after: seq<X>, step: (S, X) -> S)
    requires Commutes(step)
    ensures Fold(s, before + [x] + after, step) == Fold(step(s, x), before + after, step)
    decreases |before|
  {
    if before == [] {
      assert before + [x] + after == [x] + after && before + after == after;
      FoldFirst(s, x, after, step);
    } else {
      var b, rest := before[0], before[1..];
      assert before + [x] + after == [b] + (rest + [x] + after) && before + after == [b] + (rest + after);
      FoldFirst(s, b, rest + [x] + after, step);
      FoldToFront(step(s, b), rest, x, after, step);
      FoldFirst(step(s, x), b, rest + after, step);
    }
  }

  /** Steps that commute may be taken in any order. */
  lemma {:induction false} FoldAnyOrder<S(!new), X(!new)>(s: S, xs: seq<X>, ys: seq<X>, step: (S, X) -> S)
    requires Commutes(step) && multiset(xs) == multiset(ys)
    ensures Fold(s, xs, step) == Fold(s, ys, step)
    decreases |xs|
  {
    if xs == [] {
      assert |multiset(ys)| == 0;
    } else {
      var x, rest := xs[0], xs[1..];
      assert xs == [x] + rest && x in multiset(ys);
      var i :| 0 <= i < |ys| && ys[i] == x;
      var before, after := ys[..i], ys[i + 1..];
      assert ys == before + [x] + after;
      FoldToFront(s, before, x, after, step);
      WithoutOne(rest, x, before, after);
      FoldAnyOrder(step(s, x), rest, before + after, step);
    }
  }

  lemma WithoutOne<X>(rest: seq<X>, x: X, before: seq<X>, after: seq<X>)
    requires multiset([x] + rest) == multiset(before + [x] + after)
    ensures multiset(rest) == multiset(before + after)
  {
    assert multiset([x] + rest) == multiset{x} + multiset(rest);
    assert multiset(before + [x] + after) == multiset{x} + multiset(before + after);
    assert multiset(rest) == multiset([x] + rest) - multiset{x};
  }
}
