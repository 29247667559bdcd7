/** Lists without duplicates, and counting with them. */
module Lists {

  predicate Distinct<T(==)>(s: seq<T>) {
    forall i, j | 0 <= i < j < |s| :: s[i] != s[j]
  }

  function Members(s: seq<int>): set<int> { set k | k in s }

  function Upto(n: nat): (r: set<int>)
    ensures |r| == n && forall i :: i in r <==> 0 <= i < n
  {
    if n == 0 then {} else Upto(n - 1) + {n - 1}
  }

  lemma {:induction false} DistinctCard<T>(s: seq<T>, all: set<T>)
    requires Distinct(s) && forall x | x in s :: x in all
    ensures |s| <= |all|
    ensures |s| == |all| ==> forall x | x in all :: x in s
  {
    if |s| > 0 {
      var last := s[|s| - 1];
      var init := s[..|s| - 1];
      forall x | x in init
        ensures x in all - {last}
      {
      }
      DistinctCard(init, all - {last});
      assert forall x :: x in s <==> x in init || x == last;
    }
  }

  lemma {:induction false} CoverCard<T>(s: seq<T>, all: set<T>)
    requires forall x | x in all :: x in s
    ensures |all| <= |s|
  {
    if |s| > 0 {
      var last, init := s[|s| - 1], s[..|s| - 1];
      forall x | x in all - {last}
        ensures x in init
      {
      }
      CoverCard(init, all - {last});
    }
  }

  /** A list without duplicates has as many members as entries. */
  lemma MembersCard(s: seq<int>)
    requires Distinct(s)
    ensures |Members(s)| == |s|
  {
    DistinctCard(s, Members(s));
    CoverCard(s, Members(s));
  }

  lemma SomeMember<T>(s: set<T>) returns (x: T)
    requires s != {}
    ensures x in s
  {
    x :| x in s;
  }
}
