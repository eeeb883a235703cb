/** Things in order of their names: one order, whatever order they are found in. */
module NameOrder {

  /** The order of strings, character by character, a prefix before what it begins. */
  predicate Precedes(a: string, b: string) {
    b != [] && (a == [] || a[0] < b[0] || (a[0] == b[0] && Precedes(a[1..], b[1..])))
  }

  /** Of two strings that differ exactly one comes first. */
  lemma {:induction false} OneFirst(a: string, b: string)
    ensures a != b <==> Precedes(a, b) || Precedes(b, a)
    ensures !(Precedes(a, b) && Precedes(b, a))
  {
    if a != [] && b != [] {
      OneFirst(a[1..], b[1..]);
      assert a == [a[0]] + a[1..] && b == [b[0]] + b[1..];
    }
  }

  /** A string comes before another exactly when, after what they share, it ends or its next character is the lower. */
  lemma {:induction false} PrecedesIs(a: string, b: string)
    ensures Precedes(a, b) <==>
            exists k :: 0 <= k < |b| && k <= |a| && a[..k] == b[..k] && (k == |a| || a[k] < b[k])
  {
    if a != [] && b != [] && a[0] == b[0] {
      PrecedesIs(a[1..], b[1..]);
      if Precedes(a[1..], b[1..]) {
        var k :| 0 <= k < |b[1..]| && k <= |a[1..]| && a[1..][..k] == b[1..][..k]
                 && (k == |a[1..]| || a[1..][k] < b[1..][k]);
        assert a[..k+1] == [a[0]] + a[1..][..k] && b[..k+1] == [b[0]] + b[1..][..k];
        assert k + 1 == |a| || a[k+1] < b[k+1];
      }
      if k :| 0 <= k < |b| && k <= |a| && a[..k] == b[..k] && (k == |a| || a[k] < b[k]) {
        assert a[1..][..k-1] == a[..k][1..] && b[1..][..k-1] == b[..k][1..];
        assert k == |a| || a[1..][k-1] < b[1..][k-1];
      }
    } else if a != [] && b != [] {
      assert a[..0] == b[..0];
      forall k | 0 < k < |b| && k <= |a| ensures a[..k] != b[..k] { assert a[..k][0] == a[0] && b[..k][0] == b[0]; }
    } else {
      assert a[..0] == b[..0];
    }
  }

  lemma {:induction false} PrecedesOn(a: string, b: string, c: string)
    requires Precedes(a, b) && Precedes(b, c)
    ensures Precedes(a, c)
  {
    if a != [] && a[0] == b[0] == c[0] { PrecedesOn(a[1..], b[1..], c[1..]); }
  }

  ghost predicate Rising<T(!new)>(s: seq<T>, name: T -> string) {
    forall j, k :: 0 <= j < k < |s| ==> Precedes(name(s[j]), name(s[k]))
  }

  ghost predicate NamesDiffer<T(!new)>(s: seq<T>, name: T -> string) {
    forall j, k :: 0 <= j < k < |s| ==> name(s[j]) != name(s[k])
  }

  ghost predicate AllAfter<T(!new)>(x: T, s: seq<T>, name: T -> string) {
    forall y :: y in s ==> Precedes(name(x), name(y))
  }

  lemma RisingFrom<T(!new)>(x: T, s: seq<T>, name: T -> string)
    requires Rising(s, name) && AllAfter(x, s, name)
    ensures Rising([x] + s, name)
  {
    hide Precedes;
    var r := [x] + s;
    forall j, k | 0 <= j < k < |r| ensures Precedes(name(r[j]), name(r[k])) { assert r[k] == s[k-1] && s[k-1] in s; }
  }

  lemma RestRises<T(!new)>(s: seq<T>, name: T -> string)
    requires s != [] && Rising(s, name)
    ensures Rising(s[1..], name) && AllAfter(s[0], s[1..], name)
  {
    hide Precedes;
    forall y | y in s[1..] ensures Precedes(name(s[0]), name(y)) {
      var k :| 0 <= k < |s[1..]| && s[1..][k] == y;
      assert s[k+1] == y;
    }
  }

  lemma BeforeAll<T(!new)>(x: T, s: seq<T>, name: T -> string)
    requires s != [] && Precedes(name(x), name(s[0])) && AllAfter(s[0], s[1..], name)
    ensures AllAfter(x, s, name)
  {
    hide Precedes;
    forall y | y in s ensures Precedes(name(x), name(y)) {
      assert s == [s[0]] + s[1..];
      if y != s[0] { PrecedesOn(name(x), name(s[0]), name(y)); }
    }
  }

  /** Puts x where its name belongs. */
  function Put<T(!new)>(s: seq<T>, x: T, name: T -> string): (r: seq<T>)
    requires Rising(s, name) && forall y :: y in s ==> name(y) != name(x)
    ensures Rising(r, name) && multiset(r) == multiset(s) + multiset{x}
    ensures forall y :: y in r <==> y in s || y == x
  {
    if s == [] then [x]
    else
      assert s == [s[0]] + s[1..];
      RestRises(s, name);
      OneFirst(name(x), name(s[0]));
      if Precedes(name(x), name(s[0])) then
        BeforeAll(x, s, name);
        RisingFrom(x, s, name);
        [x] + s
      else
        var rest := Put(s[1..], x, name);
        RisingFrom(s[0], rest, name);
        [s[0]] + rest
  }

  /** Things whose names differ, in order of their names. */
  function Sorted<T(!new)>(s: seq<T>, name: T -> string): (r: seq<T>)
    requires NamesDiffer(s, name)
    ensures Rising(r, name) && multiset(r) == multiset(s)
    ensures forall y :: y in r <==> y in s
  {
    if s == [] then []
    else
      var n := |s| - 1;
      assert s == s[..n] + [s[n]];
      assert forall y :: y in s[..n] ==> name(y) != name(s[n]);
      Put(Sorted(s[..n], name), s[n], name)
  }

  /** The same things in order of their names are one list. */
  lemma {:induction false} OneOrder<T(!new)>(a: seq<T>, b: seq<T>, name: T -> string)
    requires Rising(a, name) && Rising(b, name) && forall x :: x in a <==> x in b
    ensures a == b
  {
    hide Precedes, Rising;
    HasSome(a);
    HasSome(b);
    if a != [] {
      var m, n := |a| - 1, |b| - 1;
      LastIs(a, b, name);
      FrontRises(a, name);
      FrontRises(b, name);
      forall x ensures x in a[..m] <==> x in b[..n] {
        NotLast(a, name, x);
        NotLast(b, name, x);
      }
      OneOrder(a[..m], b[..n], name);
      assert a == a[..m] + [a[m]] && b == b[..n] + [b[n]];
    }
  }

  lemma FrontRises<T(!new)>(s: seq<T>, name: T -> string)
    requires s != [] && Rising(s, name)
    ensures Rising(s[..|s|-1], name)
  {
    hide Precedes;
  }

  lemma NothingRises<T(!new)>(name: T -> string)
    ensures Rising([], name)
  {
  }

  lemma HasSome<T(!new)>(s: seq<T>)
    ensures s != [] ==> exists x :: x in s
  {
    if s != [] { assert s[0] in s; }
  }

  lemma LastIs<T(!new)>(a: seq<T>, b: seq<T>, name: T -> string)
    requires a != [] && b != [] && Rising(a, name) && Rising(b, name) && forall x :: x in a <==> x in b
    ensures a[|a|-1] == b[|b|-1]
  {
    var m, n := |a| - 1, |b| - 1;
    assert a[m] in b && b[n] in a;
    var j :| 0 <= j < |b| && b[j] == a[m];
    var k :| 0 <= k < |a| && a[k] == b[n];
    assert j < n ==> Precedes(name(a[m]), name(b[n]));
    assert k < m ==> Precedes(name(b[n]), name(a[m]));
    OneFirst(name(a[m]), name(b[n]));
  }

  lemma NotLast<T(!new)>(s: seq<T>, name: T -> string, x: T)
    requires s != [] && Rising(s, name)
    ensures x in s[..|s|-1] <==> x in s && x != s[|s|-1]
  {
    var n := |s| - 1;
    OneFirst(name(s[n]), name(s[n]));
    assert s == s[..n] + [s[n]];
    if x in s[..n] {
      var k :| 0 <= k < n && s[k] == x;
      assert Precedes(name(s[k]), name(s[n]));
    }
  }
}
