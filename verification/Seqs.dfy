/** Sequences without repetition, their ends, and their reverse. */
module Seqs {

  ghost predicate NoDup<T>(s: seq<T>) {
    forall i, j :: 0 <= i < j < |s| ==> s[i] != s[j]
  }

  function DropLast<T>(s: seq<T>): seq<T>
    requires s != []
  {
    s[..|s| - 1]
  }

  function Last<T>(s: seq<T>): T
    requires s != []
  {
    s[|s| - 1]
  }

  lemma TailNoDup<T>(s: seq<T>)
    requires NoDup(s) && s != []
    ensures NoDup(s[1..]) && forall x :: x in s[1..] <==> x in s && x != s[0]
  {}

  lemma DropLastNoDup<T>(s: seq<T>)
    requires NoDup(s) && s != []
    ensures NoDup(DropLast(s)) && forall x :: x in DropLast(s) <==> x in s && x != Last(s)
  {}

  lemma ConsNoDup<T>(x: T, s: seq<T>)
    requires NoDup(s) && x !in s
    ensures NoDup([x] + s)
  {}

  lemma {:induction false} NoDupBound<T>(s: seq<T>, a: set<T>)
    requires NoDup(s) && forall x :: x in s ==> x in a
    ensures |s| <= |a|
    decreases |s|
  {
    if s == [] {
    } else {
      NoDupBound(s[1..], a - {s[0]});
    }
  }

  function Reverse<T>(s: seq<T>): (r: seq<T>)
    ensures |r| == |s|
  {
    if s == [] then [] else Reverse(s[1..]) + [s[0]]
  }

  lemma {:induction false} ReverseConcat<T>(a: seq<T>, b: seq<T>)
    ensures Reverse(a + b) == Reverse(b) + Reverse(a)
    decreases |a|
  {
    if a == [] {
      assert a + b == b;
    } else {
      assert (a + b)[1..] == a[1..] + b;
      ReverseConcat(a[1..], b);
    }
  }

  /** Taking the last node off the list takes the first element off the queue. */
  lemma ReverseLast<T>(s: seq<T>)
    requires s != []
    ensures Reverse(s) == [Last(s)] + Reverse(DropLast(s))
  {
    assert s == DropLast(s) + [Last(s)];
    ReverseConcat(DropLast(s), [Last(s)]);
  }
}
