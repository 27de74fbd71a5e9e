/** The stable sort of the Rust standard library (`slice::sort`, `slice::sort_by`), and what permutations keep. */
module Sorting {

  ghost predicate TotalPreorder<T(!new)>(le: (T, T) -> bool) {
    && (forall a, b :: le(a, b) || le(b, a))
    && (forall a, b, c :: le(a, b) && le(b, c) ==> le(a, c))
  }

  ghost predicate Antisymmetric<T(!new)>(le: (T, T) -> bool) {
    forall a, b :: le(a, b) && le(b, a) ==> a == b
  }

  ghost predicate Sorted<T>(le: (T, T) -> bool, s: seq<T>) {
    forall i, j | 0 <= i < j < |s| :: le(s[i], s[j])
  }

  function Insert<T>(le: (T, T) -> bool, x: T, s: seq<T>): seq<T> {
    if s == [] then [x]
    else if le(x, s[0]) then [x] + s
    else [s[0]] + Insert(le, x, s[1..])
  }

  lemma {:induction false} InsertPermutes<T>(le: (T, T) -> bool, x: T, s: seq<T>)
    ensures multiset(Insert(le, x, s)) == multiset{x} + multiset(s)
  {
    if s != [] {
      assert s == [s[0]] + s[1..];
      InsertPermutes(le, x, s[1..]);
    }
  }

  function Sort<T>(le: (T, T) -> bool, s: seq<T>): (r: seq<T>)
    ensures multiset(r) == multiset(s)
    ensures |r| == |s|
  {
    if s == [] then []
    else
      assert s == [s[0]] + s[1..];
      InsertPermutes(le, s[0], Sort(le, s[1..]));
      var r := Insert(le, s[0], Sort(le, s[1..]));
      SameMultisetSameLength(r, s);
      r
  }

  lemma SameMultisetSameLength<T>(a: seq<T>, b: seq<T>)
    requires multiset(a) == multiset(b)
    ensures |a| == |b|
  {
    assert |multiset(a)| == |a| && |multiset(b)| == |b|;
  }

  lemma {:induction false} InsertSorts<T(!new)>(le: (T, T) -> bool, x: T, s: seq<T>)
    requires TotalPreorder(le) && Sorted(le, s)
    ensures Sorted(le, Insert(le, x, s))
  {
    if s != [] && !le(x, s[0]) {
      InsertSorts(le, x, s[1..]);
      InsertPermutes(le, x, s[1..]);
      var rest := Insert(le, x, s[1..]);
      forall j | 0 <= j < |rest|
        ensures le(s[0], rest[j])
      {
        assert rest[j] in multiset(rest);
        assert rest[j] == x || rest[j] in s[1..];
      }
    } else if s != [] {
      forall j | 0 <= j < |s|
        ensures le(x, s[j])
      {
        assert j > 0 ==> le(s[0], s[j]);
      }
    }
  }

  lemma {:induction false} SortSorts<T(!new)>(le: (T, T) -> bool, s: seq<T>)
    requires TotalPreorder(le)
    ensures Sorted(le, Sort(le, s))
  {
    if s != [] {
      SortSorts(le, s[1..]);
      InsertSorts(le, s[0], Sort(le, s[1..]));
    }
  }

  /** The elements of `s` that the order does not tell apart from `x`, in their order. */
  function Ties<T>(le: (T, T) -> bool, x: T, s: seq<T>): seq<T> {
    if s == [] then []
    else (if le(x, s[0]) && le(s[0], x) then [s[0]] else []) + Ties(le, x, s[1..])
  }

  lemma TiesOfFirst<T>(le: (T, T) -> bool, x: T, first: T, rest: seq<T>)
    ensures Ties(le, x, [first] + rest) == (if le(x, first) && le(first, x) then [first] else []) + Ties(le, x, rest)
  {
    assert ([first] + rest)[1..] == rest;
  }

  lemma {:induction false} InsertIsStable<T(!new)>(le: (T, T) -> bool, x: T, y: T, s: seq<T>)
    requires TotalPreorder(le) && Sorted(le, s)
    ensures Ties(le, x, Insert(le, y, s)) == Ties(le, x, [y] + s)
  {
    if s != [] && !le(y, s[0]) {
      var first, rest := s[0], s[1..];
      assert Insert(le, y, s) == [first] + Insert(le, y, rest) && s == [first] + rest;
      hide Ties, Insert;
      InsertIsStable(le, x, y, rest);
      TiesOfFirst(le, x, y, rest);
      TiesOfFirst(le, x, first, rest);
      TiesOfFirst(le, x, y, s);
      TiesOfFirst(le, x, first, Insert(le, y, rest));
      // No more than one of `y` and `first` ties with `x`.
      assert !(le(y, x) && le(x, first));
    }
  }

  /** Equal elements keep their order. */
  lemma {:induction false} SortIsStable<T(!new)>(le: (T, T) -> bool, x: T, s: seq<T>)
    requires TotalPreorder(le)
    ensures Ties(le, x, Sort(le, s)) == Ties(le, x, s)
  {
    if s != [] {
      SortIsStable(le, x, s[1..]);
      SortSorts(le, s[1..]);
      InsertIsStable(le, x, s[0], Sort(le, s[1..]));
      assert ([s[0]] + Sort(le, s[1..]))[1..] == Sort(le, s[1..]);
    }
  }

  /** Under a total order a multiset has one sorted arrangement. */
  lemma {:induction false} SortedIsUnique<T(!new)>(le: (T, T) -> bool, a: seq<T>, b: seq<T>)
    requires TotalPreorder(le) && Antisymmetric(le)
    requires Sorted(le, a) && Sorted(le, b) && multiset(a) == multiset(b)
    ensures a == b
  {
    SameMultisetSameLength(a, b);
    if a != [] {
      LeastComesFirst(le, a, b);
      LeastComesFirst(le, b, a);
      RestOf(a);
      RestOf(b);
      SortedIsUnique(le, a[1..], b[1..]);
    }
  }

  lemma LeastComesFirst<T(!new)>(le: (T, T) -> bool, a: seq<T>, b: seq<T>)
    requires TotalPreorder(le) && Sorted(le, a) && multiset(a) == multiset(b) && a != [] && b != []
    ensures le(a[0], b[0])
  {
    assert b[0] in multiset(a);
    var i :| 0 <= i < |a| && a[i] == b[0];
    assert le(a[0], a[0]);
  }

  lemma RestOf<T>(s: seq<T>)
    requires s != []
    ensures s == [s[0]] + s[1..] && multiset(s[1..]) == multiset(s) - multiset{s[0]}
  {
    assert s == [s[0]] + s[1..];
  }

  /** The sequence without the element at an index. */
  function Without<T>(s: seq<T>, i: nat): (r: seq<T>)
    requires i < |s|
    ensures |r| == |s| - 1
  {
    s[..i] + s[i + 1..]
  }

  lemma WithoutOne<T>(s: seq<T>, i: nat)
    requires i < |s|
    ensures multiset(Without(s, i)) == multiset(s) - multiset{s[i]}
  {
    assert s == s[..i] + [s[i]] + s[i + 1..];
  }

  lemma WithoutSplits<T>(s: seq<T>, i: nat)
    requires i < |s|
    ensures s == [s[0]] + s[1..]
    ensures Without(s, i) == if i == 0 then s[1..] else [s[0]] + Without(s[1..], i - 1)
  {
  }

  function Map<S, T>(f: S -> T, s: seq<S>): (r: seq<T>)
    ensures |r| == |s|
  {
    if s == [] then [] else [f(s[0])] + Map(f, s[1..])
  }

  lemma {:induction false} MapAppends<S, T>(f: S -> T, s: seq<S>, x: S)
    ensures Map(f, s + [x]) == Map(f, s) + [f(x)]
  {
    if s == [] {
      assert s + [x] == [x];
    } else {
      assert (s + [x])[1..] == s[1..] + [x];
      MapAppends(f, s[1..], x);
    }
  }

  lemma MapNothing<S, T>(f: S -> T)
    ensures Map(f, []) == []
  {
  }

  lemma MapOfFirst<S, T>(f: S -> T, first: S, rest: seq<S>)
    ensures Map(f, [first] + rest) == [f(first)] + Map(f, rest)
  {
    assert ([first] + rest)[1..] == rest;
  }

  lemma {:induction false} MapRemoves<S, T>(f: S -> T, s: seq<S>, i: nat)
    requires i < |s|
    ensures multiset(Map(f, s)) == multiset{f(s[i])} + multiset(Map(f, Without(s, i)))
  {
    hide Map, Without;
    var first, rest := s[0], s[1..];
    MapOfFirst(f, first, rest);
    WithoutSplits(s, i);
    if i > 0 {
      MapRemoves(f, rest, i - 1);
      MapOfFirst(f, first, Without(rest, i - 1));
    }
  }

  lemma {:induction false} MapPermutes<S, T>(f: S -> T, a: seq<S>, b: seq<S>)
    requires multiset(a) == multiset(b)
    ensures multiset(Map(f, a)) == multiset(Map(f, b))
    decreases |a|
  {
    SameMultisetSameLength(a, b);
    if a != [] {
      hide Map, Without;
      assert a[0] in multiset(b);
      var i :| 0 <= i < |b| && b[i] == a[0];
      MapRemoves(f, a, 0);
      MapRemoves(f, b, i);
      WithoutOne(a, 0);
      WithoutOne(b, i);
      MapPermutes(f, Without(a, 0), Without(b, i));
    }
  }

  lemma {:induction false} MapMember<S, T>(f: S -> T, s: seq<S>, y: T) returns (x: S)
    requires y in Map(f, s)
    ensures x in s && f(x) == y
  {
    if y == f(s[0]) {
      x := s[0];
    } else {
      x := MapMember(f, s[1..], y);
    }
  }

  lemma {:induction false} MapMemberAt<S, T>(f: S -> T, s: seq<S>, y: T) returns (i: nat)
    requires y in Map(f, s)
    ensures i < |s| && f(s[i]) == y
  {
    var x := MapMember(f, s, y);
    i :| i < |s| && s[i] == x;
  }

  /** Any arrangement of the images comes from an arrangement of the elements. */
  lemma {:induction false} MapPermutesBack<S, T>(f: S -> T, s: seq<S>, images: seq<T>) returns (other: seq<S>)
    requires multiset(images) == multiset(Map(f, s))
    ensures multiset(other) == multiset(s) && Map(f, other) == images
    decreases |images|
  {
    hide Map, Without;
    SameMultisetSameLength(images, Map(f, s));
    if images == [] {
      other := [];
      MapNothing(f);
    } else {
      RestOf(images);
      assert images[0] in multiset(Map(f, s));
      var i := MapMemberAt(f, s, images[0]);
      MapRemoves(f, s, i);
      WithoutOne(s, i);
      var rest := MapPermutesBack(f, Without(s, i), images[1..]);
      other := [s[i]] + rest;
      MapOfFirst(f, s[i], rest);
      assert multiset(s)[s[i]] > 0;
    }
  }
}
