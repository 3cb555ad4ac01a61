/** Lexicographic order on text and on composite sort keys, and sorting by a key.
    Text is a sequence of character codes; a composite key is a sequence of texts,
    which is how an ORDER BY over several columns is expressed here. */
module Sorting {

  type Text = seq<int>
  type Key = seq<Text>

  /** The codes of a literal. */
  function Ascii(s: string): Text {
    seq(|s|, i requires 0 <= i < |s| => s[i] as int)
  }

  /** Text order: the first differing code decides, a proper prefix comes first. */
  predicate TextLeq(a: Text, b: Text) {
    |a| == 0 || (|b| > 0 && (a[0] < b[0] || (a[0] == b[0] && TextLeq(a[1..], b[1..]))))
  }

  /** Column-by-column order of composite keys. */
  predicate KeyLeq(a: Key, b: Key) {
    |a| == 0 || (|b| > 0 && (if a[0] == b[0] then KeyLeq(a[1..], b[1..]) else TextLeq(a[0], b[0])))
  }

  lemma {:induction false} TextTotal(a: Text, b: Text)
    ensures TextLeq(a, b) || TextLeq(b, a)
    ensures TextLeq(a, b) && TextLeq(b, a) ==> a == b
    ensures a == b ==> TextLeq(a, b)
  {
    if |a| > 0 && |b| > 0 && a[0] == b[0] {
      TextTotal(a[1..], b[1..]);
      assert a == [a[0]] + a[1..] && b == [b[0]] + b[1..];
    }
  }

  lemma {:induction false} TextTransitive(a: Text, b: Text, c: Text)
    requires TextLeq(a, b) && TextLeq(b, c)
    ensures TextLeq(a, c)
  {
    if |a| > 0 && a[0] == b[0] == c[0] {
      TextTransitive(a[1..], b[1..], c[1..]);
    }
  }

  lemma {:induction false} KeyTotal(a: Key, b: Key)
    ensures KeyLeq(a, b) || KeyLeq(b, a)
    ensures KeyLeq(a, b) && KeyLeq(b, a) ==> a == b
    ensures a == b ==> KeyLeq(a, b)
  {
    if |a| > 0 && |b| > 0 {
      if a[0] == b[0] {
        KeyTotal(a[1..], b[1..]);
        assert a == [a[0]] + a[1..] && b == [b[0]] + b[1..];
      } else {
        TextTotal(a[0], b[0]);
      }
    }
  }

  lemma {:induction false} KeyTransitive(a: Key, b: Key, c: Key)
    requires KeyLeq(a, b) && KeyLeq(b, c)
    ensures KeyLeq(a, c)
  {
    if |a| > 0 {
      if a[0] == b[0] == c[0] {
        KeyTransitive(a[1..], b[1..], c[1..]);
      } else {
        TextTotal(a[0], b[0]);
        TextTotal(b[0], c[0]);
        TextTransitive(a[0], b[0], c[0]);
        TextTotal(a[0], c[0]);
      }
    }
  }

  /** ORDER BY: insertion sort by a composite key. */
  function SortBy<T>(key: T -> Key, s: seq<T>): (r: seq<T>)
    ensures |r| == |s|
  {
    if |s| == 0 then [] else Insert(key, s[0], SortBy(key, s[1..]))
  }

  function Insert<T>(key: T -> Key, x: T, s: seq<T>): (r: seq<T>)
    ensures |r| == |s| + 1
  {
    if |s| == 0 || KeyLeq(key(x), key(s[0])) then [x] + s
    else [s[0]] + Insert(key, x, s[1..])
  }

  ghost predicate SortedBy<T>(key: T -> Key, s: seq<T>) {
    forall i, j :: 0 <= i < j < |s| ==> KeyLeq(key(s[i]), key(s[j]))
  }

  /** Elements of s are told apart by their keys. */
  ghost predicate KeysDistinguish<T(!new)>(key: T -> Key, s: seq<T>) {
    forall x, y :: x in s && y in s && key(x) == key(y) ==> x == y
  }

  lemma PrependSorted<T>(key: T -> Key, x: T, s: seq<T>)
    requires SortedBy(key, s) && forall y :: y in s ==> KeyLeq(key(x), key(y))
    ensures SortedBy(key, [x] + s)
  {
    var r := [x] + s;
    forall i, j | 0 <= i < j < |r| ensures KeyLeq(key(r[i]), key(r[j])) {
      if i == 0 { assert s[j - 1] in s; }
    }
  }

  lemma BeforeAll<T>(key: T -> Key, x: T, s: seq<T>)
    requires SortedBy(key, s) && (|s| > 0 ==> KeyLeq(key(x), key(s[0])))
    ensures forall y :: y in s ==> KeyLeq(key(x), key(y))
  {
    forall y | y in s ensures KeyLeq(key(x), key(y)) {
      var i :| 0 <= i < |s| && s[i] == y;
      if i > 0 { KeyTransitive(key(x), key(s[0]), key(y)); }
    }
  }

  lemma TailSorted<T>(key: T -> Key, s: seq<T>)
    requires SortedBy(key, s) && |s| > 0
    ensures SortedBy(key, s[1..]) && forall y :: y in s[1..] ==> KeyLeq(key(s[0]), key(y))
  {
    forall y | y in s[1..] ensures KeyLeq(key(s[0]), key(y)) {
      var i :| 0 <= i < |s[1..]| && s[1..][i] == y;
      assert y == s[i + 1];
    }
  }

  lemma {:induction false} InsertFacts<T>(key: T -> Key, x: T, s: seq<T>)
    requires SortedBy(key, s)
    ensures SortedBy(key, Insert(key, x, s))
    ensures multiset(Insert(key, x, s)) == multiset(s) + multiset{x}
  {
    if |s| == 0 || KeyLeq(key(x), key(s[0])) {
      BeforeAll(key, x, s);
      PrependSorted(key, x, s);
    } else {
      var t := Insert(key, x, s[1..]);
      TailSorted(key, s);
      InsertFacts(key, x, s[1..]);
      assert s == [s[0]] + s[1..];
      KeyTotal(key(x), key(s[0]));
      forall y | y in t ensures KeyLeq(key(s[0]), key(y)) {
        assert y in multiset(t);
        assert y == x || y in s[1..];
      }
      PrependSorted(key, s[0], t);
    }
  }

  /** Sorting rearranges the elements and puts the keys in order. */
  lemma {:induction false} SortFacts<T>(key: T -> Key, s: seq<T>)
    ensures SortedBy(key, SortBy(key, s))
    ensures multiset(SortBy(key, s)) == multiset(s)
  {
    if |s| > 0 {
      SortFacts(key, s[1..]);
      InsertFacts(key, s[0], SortBy(key, s[1..]));
      assert s == [s[0]] + s[1..];
    }
  }

  lemma SortMembers<T>(key: T -> Key, s: seq<T>)
    ensures forall x :: x in SortBy(key, s) <==> x in s
  {
    SortFacts(key, s);
    assert forall x :: x in SortBy(key, s) <==> x in multiset(SortBy(key, s));
    assert forall x :: x in s <==> x in multiset(s);
  }

  lemma SameFirst<T(!new)>(key: T -> Key, a: seq<T>, b: seq<T>)
    requires |a| > 0 && SortedBy(key, a) && SortedBy(key, b) && multiset(a) == multiset(b) && KeysDistinguish(key, a)
    ensures |b| > 0 && a[0] == b[0]
  {
    assert a[0] in multiset(b);
    assert b[0] in multiset(a);
    var i :| 0 <= i < |b| && b[i] == a[0];
    var j :| 0 <= j < |a| && a[j] == b[0];
    KeyTotal(key(a[0]), key(b[0]));
    assert KeyLeq(key(a[0]), key(a[j])) && KeyLeq(key(b[0]), key(b[i]));
  }

  lemma TailMultiset<T>(a: seq<T>)
    requires |a| > 0
    ensures multiset(a[1..]) == multiset(a) - multiset{a[0]}
  {
    assert a == [a[0]] + a[1..];
  }

  /** A sorted arrangement of elements with distinguishing keys is unique. */
  lemma {:induction false} SortedUnique<T(!new)>(key: T -> Key, a: seq<T>, b: seq<T>)
    requires SortedBy(key, a) && SortedBy(key, b)
    requires multiset(a) == multiset(b)
    requires KeysDistinguish(key, a)
    ensures a == b
  {
    if |a| == 0 {
      assert |multiset(b)| == 0;
    } else {
      SameFirst(key, a, b);
      TailMultiset(a);
      TailMultiset(b);
      SortedUnique(key, a[1..], b[1..]);
      assert a == [a[0]] + a[1..] && b == [b[0]] + b[1..];
    }
  }

  /** ORDER BY with distinguishing keys does not see the physical row order. */
  lemma SortIgnoresOrder<T(!new)>(key: T -> Key, a: seq<T>, b: seq<T>)
    requires multiset(a) == multiset(b)
    requires KeysDistinguish(key, a)
    ensures SortBy(key, a) == SortBy(key, b)
  {
    SortFacts(key, a);
    SortFacts(key, b);
    SortMembers(key, a);
    SortedUnique(key, SortBy(key, a), SortBy(key, b));
  }

  function Map<A, B>(f: A -> B, s: seq<A>): (r: seq<B>)
    ensures |r| == |s|
    ensures forall i :: 0 <= i < |s| ==> r[i] == f(s[i])
  {
    seq(|s|, i requires 0 <= i < |s| => f(s[i]))
  }

  function Without<A>(s: seq<A>, i: nat): (r: seq<A>)
    requires i < |s|
    ensures |r| == |s| - 1
  {
    s[..i] + s[i + 1..]
  }

  lemma RemoveOne<A>(s: seq<A>, i: nat)
    requires i < |s|
    ensures multiset(s) == multiset(Without(s, i)) + multiset{s[i]}
  {
    assert s == s[..i] + [s[i]] + s[i + 1..];
  }

  lemma MapRemoveOne<A, B>(f: A -> B, s: seq<A>, i: nat)
    requires i < |s|
    ensures multiset(Map(f, s)) == multiset(Map(f, Without(s, i))) + multiset{f(s[i])}
  {
    RemoveOne(Map(f, s), i);
    assert Without(Map(f, s), i) == Map(f, Without(s, i));
  }

  lemma {:induction false} MapMultiset<A, B>(f: A -> B, a: seq<A>, b: seq<A>)
    requires multiset(a) == multiset(b)
    ensures multiset(Map(f, a)) == multiset(Map(f, b))
    decreases |a|
  {
    if |a| == 0 {
      assert |multiset(b)| == 0;
      assert b == [];
    } else {
      assert a[0] in multiset(b);
      var i :| 0 <= i < |b| && b[i] == a[0];
      RemoveOne(a, 0);
      RemoveOne(b, i);
      assert multiset(Without(a, 0)) == multiset(a) - multiset{a[0]};
      assert multiset(Without(b, i)) == multiset(a) - multiset{a[0]};
      MapMultiset(f, Without(a, 0), Without(b, i));
      MapRemoveOne(f, a, 0);
      MapRemoveOne(f, b, i);
    }
  }

  /** Sorting commutes with a map that keeps the order of the keys. */
  lemma SortCommutes<A(!new), B(!new)>(key: A -> Key, key': B -> Key, f: A -> B, s: seq<A>)
    requires forall x, y :: x in s && y in s && KeyLeq(key(x), key(y)) ==> KeyLeq(key'(f(x)), key'(f(y)))
    requires KeysDistinguish(key', Map(f, s))
    ensures Map(f, SortBy(key, s)) == SortBy(key', Map(f, s))
  {
    var a := Map(f, SortBy(key, s));
    SortFacts(key, s);
    SortMembers(key, s);
    MapMultiset(f, SortBy(key, s), s);
    SortFacts(key', Map(f, s));
    assert SortedBy(key', a) by {
      forall i, j | 0 <= i < j < |a| ensures KeyLeq(key'(a[i]), key'(a[j])) {
        var t := SortBy(key, s);
        assert t[i] in s && t[j] in s;
      }
    }
    assert forall x :: x in a ==> x in multiset(a);
    assert forall x :: x in Map(f, s) <==> x in multiset(Map(f, s));
    SortedUnique(key', a, SortBy(key', Map(f, s)));
  }

  /** The elements satisfying p, in order: WHERE. */
  function Filter<T(!new)>(p: T -> bool, s: seq<T>): (r: seq<T>)
    ensures forall x :: x in r <==> x in s && p(x)
    ensures |r| <= |s|
  {
    if |s| == 0 then []
    else (if p(s[0]) then [s[0]] else []) + Filter(p, s[1..])
  }

  lemma FilterHead<T(!new)>(p: T -> bool, s: seq<T>)
    requires |s| > 0
    ensures Filter(p, s) == (if p(s[0]) then [s[0]] else []) + Filter(p, s[1..])
  {}

  lemma FilterCons<T(!new)>(p: T -> bool, y: T, rest: seq<T>)
    ensures Filter(p, [y] + rest) == (if p(y) then [y] else []) + Filter(p, rest)
  {
    assert ([y] + rest)[1..] == rest;
  }

  lemma Regroup<T>(head: seq<T>, middle: seq<T>, last: seq<T>)
    ensures head + (middle + last) == (head + middle) + last
  {}

  lemma {:induction false} FilterAppend<T(!new)>(p: T -> bool, s: seq<T>, x: T)
    ensures Filter(p, s + [x]) == Filter(p, s) + (if p(x) then [x] else [])
  {
    if |s| == 0 {
      assert s + [x] == [x];
    } else {
      var y, rest := s[0], s[1..];
      FilterAppend(p, rest, x);
      assert s == [y] + rest && s + [x] == [y] + (rest + [x]);
      FilterCons(p, y, rest);
      FilterCons(p, y, rest + [x]);
      Regroup(if p(y) then [y] else [], Filter(p, rest), if p(x) then [x] else []);
    }
  }
}
