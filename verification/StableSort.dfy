/** A stable sort by place, as an insertion: what the library's stable sort gives for any list. */
module StableSort {

  predicate InOrder<T(!new)>(s: seq<T>, place: T -> int) {
    forall j, k :: 0 <= j < k < |s| ==> place(s[j]) <= place(s[k])
  }

  /** Puts x after every element of its place or an earlier one. */
  function Inserted<T(!new)>(s: seq<T>, x: T, place: T -> int): (r: seq<T>)
    requires InOrder(s, place)
    ensures InOrder(r, place) && multiset(r) == multiset(s) + multiset{x} && |r| == |s| + 1
    ensures s != [] && place(s[|s|-1]) > place(x) ==> r[|s|] == s[|s|-1]
    ensures s == [] || place(s[|s|-1]) <= place(x) ==> r == s + [x]
  {
    if s == [] || place(s[|s|-1]) <= place(x) then s + [x]
    else
      var n := |s| - 1;
      assert s == s[..n] + [s[n]];
      var before := Inserted(s[..n], x, place);
      assert place(before[n]) <= place(s[n]);
      before + [s[n]]
  }

  /** Elements in order of place, those of one place as they were listed. */
  function Sorted<T(!new)>(s: seq<T>, place: T -> int): (r: seq<T>)
    ensures InOrder(r, place) && multiset(r) == multiset(s) && |r| == |s|
  {
    if s == [] then []
    else
      assert s == s[..|s|-1] + [s[|s|-1]];
      Inserted(Sorted(s[..|s|-1], place), s[|s|-1], place)
  }

  /** The elements of one place, as they are listed. */
  function AtPlace<T(!new)>(s: seq<T>, place: T -> int, p: int): seq<T> {
    if s == [] then []
    else AtPlace(s[..|s|-1], place, p) + if place(s[|s|-1]) == p then [s[|s|-1]] else []
  }

  /** Elements of one place keep the order they were listed in. */
  lemma {:induction false} KeepsOrder<T(!new)>(s: seq<T>, place: T -> int, p: int)
    ensures AtPlace(Sorted(s, place), place, p) == AtPlace(s, place, p)
  {
    hide AtPlace, Sorted, Inserted, InOrder;
    SortedStep(s, place);
    if s != [] {
      var n := |s| - 1;
      KeepsOrder(s[..n], place, p);
      PutAfter(Sorted(s[..n], place), s[n], place, p);
      AtPlaceNext(s[..n], s[n], place, p);
      assert s == s[..n] + [s[n]];
    }
  }

  lemma SortedStep<T(!new)>(s: seq<T>, place: T -> int)
    ensures Sorted(s, place) == if s == [] then [] else Inserted(Sorted(s[..|s|-1], place), s[|s|-1], place)
  {
  }

  lemma AtPlaceNext<T(!new)>(s: seq<T>, x: T, place: T -> int, p: int)
    ensures AtPlace(s + [x], place, p) == if place(x) == p then AtPlace(s, place, p) + [x] else AtPlace(s, place, p)
  {
    assert (s + [x])[..|s|] == s;
  }

  lemma {:induction false} PutAfter<T(!new)>(s: seq<T>, x: T, place: T -> int, p: int)
    requires InOrder(s, place)
    ensures AtPlace(Inserted(s, x, place), place, p) == if place(x) ==
              p then AtPlace(s, place, p) + [x] else AtPlace(s, place, p)
  {
    hide AtPlace;
    if s == [] || place(s[|s|-1]) <= place(x) {
      AtPlaceNext(s, x, place, p);
    } else {
      var n := |s| - 1;
      PutAfter(s[..n], x, place, p);
      AtPlaceNext(Inserted(s[..n], x, place), s[n], place, p);
      AtPlaceNext(s[..n], s[n], place, p);
      assert s == s[..n] + [s[n]];
    }
  }
}
