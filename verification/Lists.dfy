/** Facts about kernel lists, modelled as duplicate-free sequences. */
module Lists {

  ghost predicate NoDup<T(!new)>(s: seq<T>) {
    forall i, j :: 0 <= i < j < |s| ==> s[i] != s[j]
  }

  ghost predicate Disjoint<T(!new)>(s: seq<T>, t: seq<T>) {
    forall x :: x in s ==> x !in t
  }

  /** list_del: every element but x, in order. */
  function Without<T(==,!new)>(s: seq<T>, x: T): (r: seq<T>)
    ensures forall y :: y in r <==> y in s && y != x
    ensures |r| <= |s|
    ensures x !in s ==> r == s
  {
    if s == [] then []
    else if s[0] == x then Without(s[1..], x)
    else [s[0]] + Without(s[1..], x)
  }

  /** The others keep their order. */
  lemma {:induction false} WithoutSplit<T(!new)>(a: seq<T>, x: T, b: seq<T>)
    requires x !in a && x !in b
    ensures Without(a + [x] + b, x) == a + b
  {
    if a == [] {
      assert a + [x] + b == [x] + b && ([x] + b)[1..] == b;
      assert a + b == b;
    } else {
      WithoutSplit(a[1..], x, b);
      assert (a + [x] + b)[1..] == a[1..] + [x] + b;
      assert a + b == [a[0]] + (a[1..] + b);
    }
  }

  lemma {:induction false} WithoutNoDup<T(!new)>(s: seq<T>, x: T)
    requires NoDup(s)
    ensures NoDup(Without(s, x))
    ensures s != [] && s[0] == x ==> Without(s, x) == s[1..]
  {
    if s != [] {
      WithoutNoDup(s[1..], x);
      if s[0] == x {
        assert x !in s[1..];
      } else {
        var t := Without(s[1..], x);
        assert s[0] !in t;
      }
    }
  }

  lemma NoDupSnoc<T(!new)>(s: seq<T>, x: T)
    requires NoDup(s) && x !in s
    ensures NoDup(s + [x])
    ensures NoDup([x] + s)
  {
  }

  /** list_add in the middle, or insertion into a tree seen in order. */
  function InsertAt<T>(s: seq<T>, n: nat, x: T): (r: seq<T>)
    requires n <= |s|
    ensures |r| == |s| + 1 && r[n] == x
    ensures forall i :: 0 <= i < n ==> r[i] == s[i]
    ensures forall i :: n < i < |r| ==> r[i] == s[i - 1]
  {
    s[..n] + [x] + s[n..]
  }

  lemma InsertAtIn<T(!new)>(s: seq<T>, n: nat, x: T)
    requires n <= |s|
    ensures forall y :: y in InsertAt(s, n, x) <==> y == x || y in s
    ensures multiset(InsertAt(s, n, x)) == multiset(s) + multiset{x}
  {
    assert s == s[..n] + s[n..];
  }

  lemma InsertAtNoDup<T(!new)>(s: seq<T>, n: nat, x: T)
    requires n <= |s| && NoDup(s) && x !in s
    ensures NoDup(InsertAt(s, n, x))
  {
    var r := InsertAt(s, n, x);
    forall i, j | 0 <= i < j < |r| ensures r[i] != r[j] {
      if i == n { assert r[j] == s[j - 1]; }
      else if j == n { assert r[i] == s[i]; }
      else { assert r[i] == s[if i < n then i else i - 1] && r[j] == s[if j < n then j else j - 1]; }
    }
  }

  lemma {:induction false} WithoutCount<T(!new)>(s: seq<T>, x: T)
    requires NoDup(s) && x in s
    ensures |Without(s, x)| == |s| - 1
    ensures multiset(s) == multiset(Without(s, x)) + multiset{x}
  {
    assert s == [s[0]] + s[1..];
    if s[0] == x {
      assert x !in s[1..];
    } else {
      WithoutCount(s[1..], x);
    }
  }

  function Flatten<T>(ss: seq<seq<T>>): seq<T> {
    if ss == [] then [] else ss[0] + Flatten(ss[1..])
  }

  lemma {:induction false} FlattenSnoc<T>(ss: seq<seq<T>>, s: seq<T>)
    ensures Flatten(ss + [s]) == Flatten(ss) + s
  {
    if ss == [] {
      assert [s][1..] == [];
    } else {
      assert (ss + [s])[1..] == ss[1..] + [s];
      FlattenSnoc(ss[1..], s);
    }
  }
}
