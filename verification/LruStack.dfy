/** Least-recently-used replacement as a stack algorithm: what a trace of single gets leaves resident. */
module LruStack {
  import opened Wrappers
  import opened CacheModel
  import opened Lists

  /** Residents by recency after one successful get in a cache of `n` slots without pins. */
  function GetOrder(order: seq<int>, n: nat, key: int): seq<int>
    requires n >= 1
  {
    if key in order then Touch(order, key) else [key] + Cap(order, n - 1)
  }

  function Residents(trace: seq<int>, n: nat): seq<int>
    requires n >= 1
  {
    if |trace| == 0 then [] else GetOrder(Residents(trace[..|trace| - 1], n), n, trace[|trace| - 1])
  }

  function Hits(trace: seq<int>, n: nat): nat
    requires n >= 1
  {
    if |trace| == 0 then 0
    else
      var past := trace[..|trace| - 1];
      Hits(past, n) + if trace[|trace| - 1] in Residents(past, n) then 1 else 0
  }

  function Cap(s: seq<int>, n: nat): seq<int> { if |s| <= n then s else s[..n] }

  /** All keys of the trace, the most recently requested first. */
  function Recent(trace: seq<int>): seq<int> {
    if |trace| == 0 then [] else Touch(Recent(trace[..|trace| - 1]), trace[|trace| - 1])
  }

  /** The requests after the last request for `key`. */
  function Since(trace: seq<int>, key: int): seq<int> {
    if |trace| == 0 || trace[|trace| - 1] == key then [] else Since(trace[..|trace| - 1], key) + [trace[|trace| - 1]]
  }

  lemma IndexOfUnique(s: seq<int>, key: int, i: nat)
    requires Distinct(s) && i < |s| && s[i] == key
    ensures IndexOf(s, key) == i
  {
  }

  lemma {:induction false} IndexOfPrefix(s: seq<int>, n: nat, key: int)
    requires n <= |s| && key in s
    ensures key in s[..n] <==> IndexOf(s, key) < n
    ensures key in s[..n] ==> IndexOf(s[..n], key) == IndexOf(s, key)
    decreases |s|
  {
    if n > 0 && s[0] != key {
      assert s[..n][1..] == s[1..][..n - 1];
      IndexOfPrefix(s[1..], n - 1, key);
    }
  }

  /** Taking out an entry and cutting commute, on either side of the cut. */
  lemma CutInside(r: seq<int>, n: nat, at: nat, key: int)
    requires at < n < |r|
    ensures ([key] + (r[..at] + r[at + 1..]))[..n] == [key] + (r[..n][..at] + r[..n][at + 1..])
  {
  }

  lemma CutBeyond(r: seq<int>, n: nat, at: nat, key: int)
    requires 1 <= n <= at < |r|
    ensures ([key] + (r[..at] + r[at + 1..]))[..n] == [key] + r[..n - 1]
  {
  }

  lemma CutAfter(r: seq<int>, n: nat, key: int)
    requires 1 <= n <= |r|
    ensures ([key] + r)[..n] == [key] + r[..n - 1] && r[..n][..n - 1] == r[..n - 1]
  {
  }

  lemma TouchCap(r: seq<int>, n: nat, key: int)
    requires n >= 1
    ensures GetOrder(Cap(r, n), n, key) == Cap(Touch(r, key), n)
  {
    hide IndexOf;
    if |r| >= n {
      CutAfter(r, n, key);
    }
    if key in r && |r| > n {
      IndexOfPrefix(r, n, key);
      var at := IndexOf(r, key);
      if at < n {
        CutInside(r, n, at, key);
      } else {
        CutBeyond(r, n, at, key);
      }
    }
  }

  /** The residents are the `n` most recently requested distinct keys. */
  lemma {:induction false} ResidentsAreRecent(trace: seq<int>, n: nat)
    requires n >= 1
    ensures Residents(trace, n) == Cap(Recent(trace), n)
    decreases |trace|
  {
    if |trace| > 0 {
      var past := trace[..|trace| - 1];
      ResidentsAreRecent(past, n);
      TouchCap(Recent(past), n, trace[|trace| - 1]);
    }
  }

  lemma {:induction false} RecentDistinct(trace: seq<int>)
    ensures Distinct(Recent(trace)) && forall k :: k in Recent(trace) <==> k in trace
    decreases |trace|
  {
    if |trace| > 0 {
      var past, last := trace[..|trace| - 1], trace[|trace| - 1];
      RecentDistinct(past);
      WithoutMembers(Recent(past), last);
      WithoutStaysDistinct(Recent(past), last);
      assert trace == past + [last];
    }
  }

  lemma WithoutStaysDistinct(order: seq<int>, key: int)
    requires Distinct(order)
    ensures Distinct(Without(order, key))
  {
  }

  /** Position of the last request for a key, -1 if there is none. */
  function LastAt(trace: seq<int>, key: int): (at: int)
    ensures -1 <= at < |trace|
  {
    if |trace| == 0 then -1 else if trace[|trace| - 1] == key then |trace| - 1 else LastAt(trace[..|trace| - 1], key)
  }

  lemma {:induction false} SinceIsLater(trace: seq<int>, key: int, k: int)
    ensures k in Since(trace, key) <==> LastAt(trace, k) > LastAt(trace, key)
    ensures k in trace <==> LastAt(trace, k) >= 0
    decreases |trace|
  {
    if |trace| > 0 {
      var past, last := trace[..|trace| - 1], trace[|trace| - 1];
      assert trace == past + [last];
      SinceIsLater(past, key, k);
    }
  }

  /** Later requested keys come first. */
  ghost predicate ByRecency(trace: seq<int>, order: seq<int>) {
    forall i, j | 0 <= i < j < |order| :: LastAt(trace, order[i]) > LastAt(trace, order[j])
  }

  lemma WithoutByRecency(trace: seq<int>, order: seq<int>, key: int)
    requires ByRecency(trace, order)
    ensures ByRecency(trace, Without(order, key))
  {
    hide LastAt;
    if key in order {
      var w, at := Without(order, key), IndexOf(order, key);
      WithoutMembersLen(order, key);
      forall i, j | 0 <= i < j < |w|
        ensures LastAt(trace, w[i]) > LastAt(trace, w[j])
      {
        var a, b := if i < at then i else i + 1, if j < at then j else j + 1;
        assert w[i] == order[a] && w[j] == order[b];
        hide Without, IndexOf;
        assert LastAt(trace, order[a]) > LastAt(trace, order[b]);
      }
    }
  }

  lemma SnocByRecency(trace: seq<int>, last: int, order: seq<int>)
    requires ByRecency(trace, order) && last !in order
    ensures ByRecency(trace + [last], [last] + order)
  {
    var t, all := trace + [last], [last] + order;
    assert t[..|trace|] == trace;
    forall i, j | 0 <= i < j < |all|
      ensures LastAt(t, all[i]) > LastAt(t, all[j])
    {
      assert all[j] == order[j - 1] && (i > 0 ==> all[i] == order[i - 1]);
    }
  }

  lemma {:induction false} RecentByRecency(trace: seq<int>)
    ensures ByRecency(trace, Recent(trace))
    decreases |trace|
  {
    if |trace| > 0 {
      var past, last := trace[..|trace| - 1], trace[|trace| - 1];
      assert trace == past + [last];
      RecentByRecency(past);
      RecentDistinct(past);
      WithoutMembers(Recent(past), last);
      WithoutByRecency(past, Recent(past), last);
      hide Without, ByRecency, Distinct;
      SnocByRecency(past, last, Without(Recent(past), last));
    }
  }

  /** What stands in front of a key is what has been requested since. */
  lemma FrontIsSince(trace: seq<int>, at: nat)
    requires at < |Recent(trace)|
    ensures Members(Recent(trace)[..at]) == Members(Since(trace, Recent(trace)[at]))
  {
    var r, key := Recent(trace), Recent(trace)[at];
    RecentByRecency(trace);
    RecentDistinct(trace);
    hide Recent, Since, Distinct, LastAt;
    forall k
      ensures k in r[..at] <==> k in Since(trace, key)
    {
      SinceIsLater(trace, key, k);
      if k in r {
        var i :| 0 <= i < |r| && r[i] == k;
        assert i < at ==> LastAt(trace, r[i]) > LastAt(trace, r[at]);
        assert at < i ==> LastAt(trace, r[at]) > LastAt(trace, r[i]);
      }
    }
  }

  /** Stack distance: a key is resident exactly when it was requested and fewer than `n` distinct keys came since. */
  lemma ResidentIff(trace: seq<int>, n: nat, key: int)
    requires n >= 1
    ensures key in Residents(trace, n) <==> key in trace && |Members(Since(trace, key))| < n
  {
    ResidentsAreRecent(trace, n);
    RecentDistinct(trace);
    var r := Recent(trace);
    if key in trace {
      var at :| 0 <= at < |r| && r[at] == key;
      FrontIsSince(trace, at);
      MembersCard(r[..at]);
      hide Recent, Since, Residents;
      assert key in Cap(r, n) <==> at < n;
    }
  }

  /** Inclusion: a larger cache holds a superset. */
  lemma Inclusion(trace: seq<int>, n: nat, m: nat)
    requires 1 <= n <= m
    ensures Members(Residents(trace, n)) <= Members(Residents(trace, m))
  {
    forall k | k in Residents(trace, n)
      ensures k in Residents(trace, m)
    {
      ResidentIff(trace, n, k);
      ResidentIff(trace, m, k);
    }
  }

  /** A larger cache never has fewer hits on the same trace. */
  lemma {:induction false} HitsMonotone(trace: seq<int>, n: nat, m: nat)
    requires 1 <= n <= m
    ensures Hits(trace, n) <= Hits(trace, m)
    decreases |trace|
  {
    if |trace| > 0 {
      var past, last := trace[..|trace| - 1], trace[|trace| - 1];
      HitsMonotone(past, n, m);
      Inclusion(past, n, m);
      assert last in Residents(past, n) ==> last in Members(Residents(past, n));
    }
  }

  /** A get without pins makes room by dropping the last of a full list. */
  lemma KeptIsCap(order: seq<int>, n: nat)
    requires n >= 1 && Distinct(order) && |order| <= n
    ensures Kept(order, n, {}) == Some(Cap(order, n - 1))
  {
    if |order| == n {
      IndexOfUnique(order, order[n - 1], n - 1);
      assert Without(order, order[n - 1]) == order[..n - 1];
    }
  }
}
