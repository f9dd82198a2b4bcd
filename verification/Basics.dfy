/** Options, results, the code-point order on strings, and duplicate-free sorting. */
module Basics {

  datatype Option<+T> = None | Some(value: T)

  datatype Result<+T, +E> = Ok(value: T) | Err(error: E)

  // ---- Strings ordered by code point, as Python compares them ----

  predicate StringLe(a: string, b: string) {
    a == [] || (b != [] && (a[0] < b[0] || (a[0] == b[0] && StringLe(a[1..], b[1..]))))
  }

  predicate StringLt(a: string, b: string) {
    a != b && StringLe(a, b)
  }

  /** The order on strings is the lexicographic one: a comes before b when it is a prefix of b, or when it is smaller
      at the first place where they differ. */
  lemma {:induction false} StringLeIff(a: string, b: string)
    ensures StringLe(a, b) <==>
              a <= b || exists i :: 0 <= i < |a| && i < |b| && a[..i] == b[..i] && a[i] < b[i]
  {
    if a != [] && b != [] && a[0] == b[0] {
      var a', b' := a[1..], b[1..];
      assert a == [a[0]] + a' && b == [b[0]] + b';
      StringLeIff(a', b');
      if i :| 0 <= i < |a'| && i < |b'| && a'[..i] == b'[..i] && a'[i] < b'[i] {
        assert a[..i + 1] == [a[0]] + a'[..i] && b[..i + 1] == [b[0]] + b'[..i];
        assert a[i + 1] < b[i + 1];
      }
      if i :| 0 <= i < |a| && i < |b| && a[..i] == b[..i] && a[i] < b[i] {
        assert a[..i][1..] == a'[..i - 1] && b[..i][1..] == b'[..i - 1];
        assert a'[i - 1] < b'[i - 1];
      }
    } else if a != [] && b != [] {
      assert a[..0] == b[..0];
      forall i | 0 < i < |a| && i < |b| ensures a[..i] != b[..i] {
        assert a[..i][0] == a[0] && b[..i][0] == b[0];
      }
    }
  }

  lemma {:induction false} StringLeRefl(a: string)
    ensures StringLe(a, a)
  {
    if a != [] { StringLeRefl(a[1..]); }
  }

  lemma {:induction false} StringLeTotal(a: string, b: string)
    ensures StringLe(a, b) || StringLe(b, a)
  {
    if a != [] && b != [] { StringLeTotal(a[1..], b[1..]); }
  }

  lemma {:induction false} StringLeAntisym(a: string, b: string)
    requires StringLe(a, b) && StringLe(b, a)
    ensures a == b
  {
    if a != [] {
      StringLeAntisym(a[1..], b[1..]);
      assert a == [a[0]] + a[1..] && b == [b[0]] + b[1..];
    }
  }

  lemma {:induction false} StringLeTrans(a: string, b: string, c: string)
    requires StringLe(a, b) && StringLe(b, c)
    ensures StringLe(a, c)
  {
    if a != [] && a[0] == b[0] == c[0] {
      StringLeTrans(a[1..], b[1..], c[1..]);
    }
  }

  lemma StringLtTrans(a: string, b: string, c: string)
    requires StringLt(a, b) && StringLe(b, c)
    ensures StringLt(a, c)
  {
    StringLeTrans(a, b, c);
    if a == c { StringLeAntisym(a, b); }
  }

  // ---- Sorting a collection of strings without duplicates ----

  predicate StrictlySorted(xs: seq<string>) {
    forall i, j :: 0 <= i < j < |xs| ==> StringLt(xs[i], xs[j])
  }

  function InsertDistinct(x: string, xs: seq<string>): (r: seq<string>)
    requires StrictlySorted(xs)
    ensures StrictlySorted(r)
    ensures forall y :: y in r <==> y == x || y in xs
  {
    if xs == [] then [x]
    else if x == xs[0] then xs
    else if StringLe(x, xs[0]) then
      InsertFront(x, xs);
      [x] + xs
    else
      StringLeTotal(x, xs[0]);
      var rest := InsertDistinct(x, xs[1..]);
      assert rest[0] in rest;
      InsertFront(xs[0], rest);
      [xs[0]] + rest
  }

  lemma InsertFront(x: string, xs: seq<string>)
    requires StrictlySorted(xs) && xs != [] && StringLt(x, xs[0])
    ensures StrictlySorted([x] + xs)
  {
    forall j | 0 < j < |xs| ensures StringLt(x, xs[j]) {
      StringLtTrans(x, xs[0], xs[j]);
    }
  }

  // sorted(set(xs))
  function SortDistinct(xs: seq<string>): (r: seq<string>)
    ensures StrictlySorted(r)
    ensures forall y :: y in r <==> y in xs
  {
    if xs == [] then [] else InsertDistinct(xs[0], SortDistinct(xs[1..]))
  }

  /** A strictly sorted sequence is determined by its set of elements. */
  lemma {:induction false} StrictlySortedUnique(xs: seq<string>, ys: seq<string>)
    requires StrictlySorted(xs) && StrictlySorted(ys)
    requires forall x :: x in xs <==> x in ys
    ensures xs == ys
  {
    assert |ys| == 0 || ys[0] in xs;
    if xs == [] {
    } else {
      assert xs[0] in ys;
      assert ys[0] in xs;
      if xs[0] != ys[0] {
        StringLeAntisym(xs[0], ys[0]);
      }
      forall x ensures x in xs[1..] <==> x in ys[1..] {
        TailMember(xs, x);
        TailMember(ys, x);
      }
      StrictlySortedUnique(xs[1..], ys[1..]);
      assert xs == [xs[0]] + xs[1..] && ys == [ys[0]] + ys[1..];
    }
  }

  lemma TailMember(xs: seq<string>, x: string)
    requires StrictlySorted(xs) && xs != []
    ensures x in xs[1..] <==> x in xs && x != xs[0]
  {
    assert xs == [xs[0]] + xs[1..];
    if x in xs[1..] {
      var j :| 0 <= j < |xs[1..]| && xs[1..][j] == x;
      assert StringLt(xs[0], xs[j + 1]);
    }
  }

  // ---- Sequences ----

  predicate Distinct<T(==)>(xs: seq<T>) {
    forall i, j :: 0 <= i < j < |xs| ==> xs[i] != xs[j]
  }

  lemma DistinctAppend<T>(xs: seq<T>, x: T)
    ensures Distinct(xs + [x]) <==> Distinct(xs) && x !in xs
  {
    if Distinct(xs + [x]) {
      assert forall i :: 0 <= i < |xs| ==> (xs + [x])[i] == xs[i] && (xs + [x])[|xs|] == x;
    }
  }

  lemma DistinctConcat<T>(a: seq<T>, b: seq<T>)
    ensures Distinct(a + b) <==> Distinct(a) && Distinct(b) && forall x :: x in b ==> x !in a
  {
    var ab := a + b;
    assert forall i :: 0 <= i < |a| ==> ab[i] == a[i];
    assert forall j :: 0 <= j < |b| ==> ab[|a| + j] == b[j];
    if Distinct(ab) {
      forall x | x in b ensures x !in a {
        var j :| 0 <= j < |b| && b[j] == x;
        assert ab[|a| + j] == x;
      }
    } else {
      var i, j :| 0 <= i < j < |ab| && ab[i] == ab[j];
      if i < |a| <= j { assert b[j - |a|] in b; }
    }
  }

  /** The image of a sequence, element by element. */
  function Map<T, U>(f: T -> U, xs: seq<T>): (r: seq<U>)
    ensures |r| == |xs| && forall i :: 0 <= i < |xs| ==> r[i] == f(xs[i])
  {
    seq(|xs|, i requires 0 <= i < |xs| => f(xs[i]))
  }

  // ---- Stable sorting by a comparison: sorted(xs, key=...) ----

  ghost predicate TotalOrder<T(!new)>(le: (T, T) -> bool) {
    && (forall x, y :: le(x, y) || le(y, x))
    && (forall x, y, z :: le(x, y) && le(y, z) ==> le(x, z))
  }

  predicate Ordered<T>(le: (T, T) -> bool, xs: seq<T>) {
    forall i, j :: 0 <= i < j < |xs| ==> le(xs[i], xs[j])
  }

  function Insert<T>(le: (T, T) -> bool, x: T, xs: seq<T>): (r: seq<T>)
    ensures multiset(r) == multiset(xs) + multiset{x}
  {
    if xs == [] then [x]
    else if le(x, xs[0]) then [x] + xs
    else
      assert xs == [xs[0]] + xs[1..];
      [xs[0]] + Insert(le, x, xs[1..])
  }

  function Sort<T>(le: (T, T) -> bool, xs: seq<T>): (r: seq<T>)
    ensures multiset(r) == multiset(xs)
  {
    if xs == [] then []
    else
      assert xs == [xs[0]] + xs[1..];
      Insert(le, xs[0], Sort(le, xs[1..]))
  }

  lemma {:induction false} InsertOrdered<T(!new)>(le: (T, T) -> bool, x: T, xs: seq<T>)
    requires TotalOrder(le) && Ordered(le, xs)
    ensures Ordered(le, Insert(le, x, xs))
  {
    if xs != [] && !le(x, xs[0]) {
      InsertOrdered(le, x, xs[1..]);
      var rest := Insert(le, x, xs[1..]);
      forall j | 0 <= j < |rest| ensures le(xs[0], rest[j]) {
        assert rest[j] in multiset(rest);
        assert rest[j] == x || rest[j] in xs[1..];
      }
    }
  }

  lemma {:induction false} SortOrdered<T(!new)>(le: (T, T) -> bool, xs: seq<T>)
    requires TotalOrder(le)
    ensures Ordered(le, Sort(le, xs))
  {
    if xs != [] {
      SortOrdered(le, xs[1..]);
      InsertOrdered(le, xs[0], Sort(le, xs[1..]));
    }
  }

  lemma SameMembers<T>(xs: seq<T>, ys: seq<T>)
    requires multiset(xs) == multiset(ys)
    ensures forall x :: x in xs <==> x in ys
    ensures |xs| == |ys|
  {
    forall x ensures x in xs <==> x in ys {
      assert x in xs <==> x in multiset(xs);
      assert x in ys <==> x in multiset(ys);
    }
    assert |multiset(xs)| == |xs| && |multiset(ys)| == |ys|;
  }

  // Where a permutation of xs holds its first element, and what is left without it
  lemma FindHead<T>(xs: seq<T>, ys: seq<T>) returns (i: nat)
    requires xs != [] && multiset(xs) == multiset(ys)
    ensures i < |ys| && ys[i] == xs[0] && multiset(ys[..i] + ys[i + 1..]) == multiset(xs[1..])
  {
    assert xs[0] in multiset(xs);
    assert xs[0] in ys;
    i :| 0 <= i < |ys| && ys[i] == xs[0];
    RemoveSame(xs, ys, i);
  }

  lemma RemoveSame<T>(xs: seq<T>, ys: seq<T>, i: nat)
    requires xs != [] && i < |ys| && multiset(xs) == multiset(ys) && ys[i] == xs[0]
    ensures multiset(ys[..i] + ys[i + 1..]) == multiset(xs[1..])
  {
    RemoveAt(ys, i);
    RemoveAt(xs, 0);
    assert xs[..0] + xs[1..] == xs[1..];
  }

  lemma RemoveAt<T>(xs: seq<T>, i: nat)
    requires i < |xs|
    ensures multiset(xs[..i] + xs[i + 1..]) == multiset(xs) - multiset{xs[i]}
  {
    var rest := xs[..i] + xs[i + 1..];
    assert xs == xs[..i] + ([xs[i]] + xs[i + 1..]);
    assert multiset(xs) == multiset(xs[..i]) + (multiset{xs[i]} + multiset(xs[i + 1..]));
    assert multiset(rest) == multiset(xs[..i]) + multiset(xs[i + 1..]);
  }

  // Elements of equal rank are equal
  ghost predicate RankedApart<T(!new)>(le: (T, T) -> bool, xs: seq<T>) {
    forall x, y :: x in xs && y in xs && le(x, y) && le(y, x) ==> x == y
  }

  lemma SameHead<T(!new)>(le: (T, T) -> bool, xs: seq<T>, ys: seq<T>)
    requires TotalOrder(le) && Ordered(le, xs) && Ordered(le, ys) && RankedApart(le, xs)
    requires xs != [] && ys != [] && forall x :: x in xs <==> x in ys
    ensures xs[0] == ys[0]
  {
    assert xs[0] in ys && ys[0] in xs;
    assert le(xs[0], xs[0]) && le(ys[0], ys[0]);
    assert le(xs[0], ys[0]) && le(ys[0], xs[0]);
  }

  lemma SameTail<T>(xs: seq<T>, ys: seq<T>)
    requires xs != [] && ys != [] && xs[0] == ys[0] && multiset(xs) == multiset(ys)
    ensures multiset(xs[1..]) == multiset(ys[1..])
  {
    assert xs == [xs[0]] + xs[1..] && ys == [ys[0]] + ys[1..];
    assert multiset(xs[1..]) == multiset(xs) - multiset{xs[0]};
    assert multiset(ys[1..]) == multiset(ys) - multiset{ys[0]};
  }

  /** Two ordered arrangements of the same elements are equal when no two elements share a rank. */
  lemma {:induction false} OrderedUnique<T(!new)>(le: (T, T) -> bool, xs: seq<T>, ys: seq<T>)
    requires TotalOrder(le) && Ordered(le, xs) && Ordered(le, ys)
    requires multiset(xs) == multiset(ys) && RankedApart(le, xs)
    ensures xs == ys
  {
    SameMembers(xs, ys);
    if xs != [] {
      SameHead(le, xs, ys);
      SameTail(xs, ys);
      OrderedUnique(le, xs[1..], ys[1..]);
      assert xs == [xs[0]] + xs[1..] && ys == [ys[0]] + ys[1..];
    }
  }

  // The elements of the same rank as x, in order
  function Peers<T>(le: (T, T) -> bool, x: T, xs: seq<T>): seq<T> {
    if xs == [] then []
    else if le(x, xs[0]) && le(xs[0], x) then [xs[0]] + Peers(le, x, xs[1..])
    else Peers(le, x, xs[1..])
  }

  lemma {:induction false} InsertPeers<T(!new)>(le: (T, T) -> bool, x: T, y: T, xs: seq<T>)
    requires TotalOrder(le) && Ordered(le, xs)
    ensures Peers(le, x, Insert(le, y, xs)) == Peers(le, x, [y] + xs)
  {
    assert ([y] + xs)[1..] == xs;
    if xs != [] && !le(y, xs[0]) {
      InsertPeers(le, x, y, xs[1..]);
      assert Insert(le, y, xs)[1..] == Insert(le, y, xs[1..]);
      assert ([y] + xs[1..])[1..] == xs[1..];
    }
  }

  lemma {:induction false} SortStable<T(!new)>(le: (T, T) -> bool, x: T, xs: seq<T>)
    requires TotalOrder(le)
    ensures Peers(le, x, Sort(le, xs)) == Peers(le, x, xs)
  {
    if xs != [] {
      SortOrdered(le, xs[1..]);
      SortStable(le, x, xs[1..]);
      InsertPeers(le, x, xs[0], Sort(le, xs[1..]));
      assert ([xs[0]] + Sort(le, xs[1..]))[1..] == Sort(le, xs[1..]);
    }
  }

  ghost predicate SortForgetsOrder<T(!new)>(le: (T, T) -> bool, xs: seq<T>) {
    forall ys :: multiset(ys) == multiset(xs) ==> Sort(le, ys) == Sort(le, xs)
  }

  /** A stable sort forgets the input order exactly when no two different elements share a rank. */
  lemma SortForgetsOrderIff<T(!new)>(le: (T, T) -> bool, xs: seq<T>)
    requires TotalOrder(le)
    ensures SortForgetsOrder(le, xs) <==> RankedApart(le, xs)
  {
    if RankedApart(le, xs) {
      forall ys | multiset(ys) == multiset(xs) ensures Sort(le, ys) == Sort(le, xs) {
        SortOrdered(le, xs);
        SortOrdered(le, ys);
        SameMembers(xs, Sort(le, xs));
        OrderedUnique(le, Sort(le, xs), Sort(le, ys));
      }
    }
    if SortForgetsOrder(le, xs) {
      forall x, y | x in xs && y in xs && le(x, y) && le(y, x) ensures x == y {
        var px, py := ToFront(xs, x), ToFront(xs, y);
        SortStable(le, x, px);
        SortStable(le, x, py);
        assert Sort(le, px) == Sort(le, xs) == Sort(le, py);
        assert Peers(le, x, px)[0] == x && Peers(le, x, py)[0] == y;
      }
    }
  }

  ghost function ToFront<T>(xs: seq<T>, x: T): (r: seq<T>)
    requires x in xs
    ensures r != [] && r[0] == x && multiset(r) == multiset(xs)
  {
    var i :| 0 <= i < |xs| && xs[i] == x;
    assert xs == xs[..i] + [xs[i]] + xs[i + 1..];
    [x] + xs[..i] + xs[i + 1..]
  }
}
