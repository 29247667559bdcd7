/** Streaming selection of the `k` best scored ids, by insertion into a sorted array. */
module TopK {
  import opened Lists

  /** A score: a real number, or minus infinity for "nothing there". */
  datatype Ext = NegInf | Fin(value: real)

  datatype Choice = Choice(score: Ext, id: int)

  const BLANK: Choice := Choice(Fin(0.0), -1)

  predicate Above(a: Ext, b: Ext) { a.Fin? && (b.NegInf? || a.value > b.value) }

  predicate Better(a: Choice, b: Choice) { Above(a.score, b.score) || (a.score == b.score && a.id < b.id) }

  predicate DistinctIds(items: seq<Choice>) {
    forall i, j | 0 <= i < j < |items| :: items[i].id != items[j].id
  }

  /** The `k` best of `items`, best first; all of them when there are no more than `k`. */
  ghost predicate IsTop(items: seq<Choice>, k: nat, r: seq<Choice>) {
    |r| <= k && (|r| < k ==> forall c | c in items :: c in r) &&
    (forall i, j | 0 <= i < j < |r| :: Better(r[i], r[j])) &&
    (forall c | c in r :: c in items) &&
    (forall c, d | c in items && c !in r && d in r :: Better(d, c))
  }

  // ---------------------------------------------------------------- insertion

  function Pos(live: seq<Choice>, c: Choice): (pos: nat)
    ensures pos <= |live| && (pos < |live| ==> Better(c, live[pos])) && forall i | 0 <= i < pos :: !Better(c, live[i])
  {
    if |live| == 0 || Better(c, live[0]) then 0 else 1 + Pos(live[1..], c)
  }

  function Longer(live: seq<Choice>, c: Choice): seq<Choice> { live[..Pos(live, c)] + [c] + live[Pos(live, c)..] }

  function Insert(live: seq<Choice>, c: Choice, k: nat): seq<Choice> {
    if |live| < k then Longer(live, c) else Longer(live, c)[..k]
  }

  /** What is in the array: the live entries, then blanks. */
  function Padded(live: seq<Choice>, k: nat): seq<Choice> {
    seq(k, i requires 0 <= i < k => if i < |live| then live[i] else BLANK)
  }

  predicate Live(live: seq<Choice>) { forall i | 0 <= i < |live| :: live[i].id >= 0 }

  lemma PaddedAt(live: seq<Choice>, k: nat, i: nat)
    requires i < k
    ensures |Padded(live, k)| == k && Padded(live, k)[i] == if i < |live| then live[i] else BLANK
  {
  }

  lemma InsertedAt(live: seq<Choice>, c: Choice, k: nat, i: nat)
    requires i < k && |live| <= k
    ensures |Padded(live, k)| == k == |Padded(Insert(live, c, k), k)|
    ensures Padded(Insert(live, c, k), k)[i] ==
            if i < Pos(live, c) then Padded(live, k)[i] else if i == Pos(live, c) then c else Padded(live, k)[i - 1]
  {
  }

  lemma InsertLive(live: seq<Choice>, c: Choice, k: nat)
    requires Live(live) && |live| <= k && c.id >= 0
    ensures Live(Insert(live, c, k)) && |Insert(live, c, k)| <= k
  {
  }

  /** Where the new choice goes: before the first blank or worse entry. */
  method FindPlace(best: array<Choice>, c: Choice, ghost live: seq<Choice>) returns (pos: nat)
    requires Live(live) && |live| <= best.Length && best[..] == Padded(live, best.Length)
    ensures pos == Pos(live, c) || (pos == best.Length == |live| == Pos(live, c))
  {
    hide Padded, Better;
    pos := 0;
    while pos < best.Length
      invariant pos <= best.Length && pos <= |live|
      invariant forall j | 0 <= j < pos :: !Better(c, live[j])
    {
      assert best[pos] == best[..][pos];
      PaddedAt(live, best.Length, pos);
      if best[pos].id < 0 || Better(c, best[pos]) {
        break;
      }
      pos := pos + 1;
    }
  }

  /** `insert_top`, in place. */
  method InsertTop(best: array<Choice>, c: Choice, ghost live: seq<Choice>)
    requires Live(live) && |live| <= best.Length && best[..] == Padded(live, best.Length) && c.id >= 0
    modifies best
    ensures best[..] == Padded(Insert(live, c, best.Length), best.Length)
    ensures Live(Insert(live, c, best.Length)) && |Insert(live, c, best.Length)| <= best.Length
  {
    hide Padded, Insert, Pos, Better;
    var k := best.Length;
    var pos := FindPlace(best, c, live);
    InsertLive(live, c, k);
    ghost var was := best[..];
    if pos < k {
      var i := k - 1;
      while i > pos
        invariant pos <= i < k
        invariant forall j | 0 <= j <= i :: best[j] == was[j]
        invariant forall j | i < j < k :: best[j] == was[j - 1]
      {
        best[i] := best[i - 1];
        i := i - 1;
      }
      best[pos] := c;
    }
    ghost var now := Padded(Insert(live, c, k), k);
    forall j | 0 <= j < k
      ensures |now| == k && best[j] == now[j]
    {
      InsertedAt(live, c, k, j);
    }
    PaddedLength(Insert(live, c, k), k);
    assert best[..] == now;
  }

  lemma PaddedLength(live: seq<Choice>, k: nat)
    ensures |Padded(live, k)| == k
  {
  }

  // ---------------------------------------------------------------- the selection

  function TopOf(items: seq<Choice>, k: nat): seq<Choice> {
    if |items| == 0 then [] else Insert(TopOf(items[..|items| - 1], k), items[|items| - 1], k)
  }

  ghost predicate Sorted(r: seq<Choice>) {
    forall i, j | 0 <= i < j < |r| :: Better(r[i], r[j])
  }

  lemma LongerSorted(live: seq<Choice>, c: Choice)
    requires Sorted(live) && forall d | d in live :: d.id != c.id
    ensures Sorted(Longer(live, c))
  {
    var pos, longer := Pos(live, c), Longer(live, c);
    forall i, j | 0 <= i < j < |longer|
      ensures Better(longer[i], longer[j])
    {
      if i < pos == j {
        assert live[i] in live;
      }
    }
  }

  lemma LongerMembers(live: seq<Choice>, c: Choice)
    ensures forall d :: d in Longer(live, c) <==> d in live || d == c
    ensures |Longer(live, c)| == |live| + 1
    ensures Pos(live, c) < |live| + 1 && Longer(live, c)[Pos(live, c)] == c
  {
    var pos := Pos(live, c);
    forall d | d in live
      ensures d in Longer(live, c)
    {
      var i :| 0 <= i < |live| && live[i] == d;
      assert Longer(live, c)[if i < pos then i else i + 1] == d;
    }
  }

  lemma InsertIsTop(items: seq<Choice>, k: nat, live: seq<Choice>, c: Choice)
    requires IsTop(items, k, live) && forall d | d in items :: d.id != c.id
    ensures IsTop(items + [c], k, Insert(live, c, k))
  {
    var pos, longer, r := Pos(live, c), Longer(live, c), Insert(live, c, k);
    LongerSorted(live, c);
    LongerMembers(live, c);
    hide Longer, Better, Pos;
    assert |live| < k ==> r == longer;
    forall x, d | x in items + [c] && x !in r && d in r
      ensures Better(d, x)
    {
      assert |live| == k && r == longer[..k];
      var i :| 0 <= i < |r| && r[i] == d;
      if x in longer {
        var j :| 0 <= j < |longer| && longer[j] == x;
        assert j == k && Better(longer[i], longer[j]);
      } else {
        assert x in items && x !in live;
        if d == c {
          LastBeats(live, c, k, x);
        }
      }
    }
  }

  lemma LastBeats(live: seq<Choice>, c: Choice, k: nat, x: Choice)
    requires |live| == k && Sorted(live) && c !in live && c in Longer(live, c)[..k] &&
      forall d | d in live :: Better(d, x)
    ensures Better(c, x)
  {
    var pos := Pos(live, c);
    assert live[pos] in live;
  }

  /** Streaming insertion selects the best `k`. */
  lemma {:induction false} TopOfIsTop(items: seq<Choice>, k: nat)
    requires DistinctIds(items)
    ensures IsTop(items, k, TopOf(items, k))
    decreases |items|
  {
    if |items| > 0 {
      var init, last := items[..|items| - 1], items[|items| - 1];
      assert items == init + [last];
      TopOfIsTop(init, k);
      InsertIsTop(init, k, TopOf(init, k), last);
    }
  }

  function Set(r: seq<Choice>): set<Choice> { set c | c in r }

  lemma TopWithin(items: seq<Choice>, k: nat, r: seq<Choice>, s: seq<Choice>)
    requires DistinctIds(items) && IsTop(items, k, r) && IsTop(items, k, s)
    ensures forall c | c in r :: c in s
  {
    if c :| c in r && c !in s {
      forall d | d in s
        ensures d in r
      {
        var i :| 0 <= i < |items| && items[i] == c;
        var j :| 0 <= j < |items| && items[j] == d;
      }
      hide Better;
      DistinctCard(s, Set(r) - {c});
      CoverCard(r, Set(r));
    }
  }

  lemma HeadIn(s: seq<Choice>)
    ensures |s| > 0 ==> s[0] in s
  {
  }

  lemma {:induction false} SameSorted(r: seq<Choice>, s: seq<Choice>)
    requires Sorted(r) && Sorted(s) && (forall c :: c in r <==> c in s)
    ensures r == s
    decreases |r|
  {
    if |r| == 0 {
      HeadIn(s);
    } else {
      assert r[0] in s && s[0] in r;
      var r', s' := r[1..], s[1..];
      assert r == [r[0]] + r' && s == [s[0]] + s';
      forall c
        ensures c in r' <==> c in s'
      {
        assert c in r' ==> c in r && c != r[0];
        assert c in s' ==> c in s && c != s[0];
      }
      SameSorted(r', s');
    }
  }

  /** There is only one selection of the best `k`. */
  lemma TopUnique(items: seq<Choice>, k: nat, r: seq<Choice>, s: seq<Choice>)
    requires DistinctIds(items) && IsTop(items, k, r) && IsTop(items, k, s)
    ensures r == s
  {
    TopWithin(items, k, r, s);
    TopWithin(items, k, s, r);
    SameSorted(r, s);
  }

  /** Dropping items that were not selected changes nothing. */
  lemma TopOfFewer(items: seq<Choice>, fewer: seq<Choice>, k: nat)
    requires DistinctIds(items) && DistinctIds(fewer)
    requires (forall c | c in fewer :: c in items) && (forall c | c in TopOf(items, k) :: c in fewer)
    ensures TopOf(fewer, k) == TopOf(items, k)
  {
    TopOfIsTop(items, k);
    TopOfIsTop(fewer, k);
    TopUnique(fewer, k, TopOf(fewer, k), TopOf(items, k));
  }

  lemma SameId(items: seq<Choice>, a: Choice, b: Choice)
    requires DistinctIds(items) && a in items && b in items && a.id == b.id
    ensures a == b
  {
    var i :| 0 <= i < |items| && items[i] == a;
    var j :| 0 <= j < |items| && items[j] == b;
  }

  lemma BestDistinct(items: seq<Choice>, k: nat, best: seq<Choice>)
    requires DistinctIds(items) && IsTop(items, k, best)
    ensures DistinctIds(best)
  {
    forall p, q | 0 <= p < q < |best|
      ensures best[p].id != best[q].id
    {
      if best[p].id == best[q].id {
        SameId(items, best[p], best[q]);
      }
    }
  }

  function Betters(items: seq<Choice>, x: Choice): set<Choice> { set c | c in items && Better(c, x) }

  /** An item is selected exactly when fewer than `k` items are better. */
  lemma SelectedIff(items: seq<Choice>, k: nat, x: Choice)
    requires DistinctIds(items) && x in items
    ensures x in TopOf(items, k) <==> |Betters(items, x)| < k
  {
    var r := TopOf(items, k);
    TopOfIsTop(items, k);
    if x in r {
      var at :| 0 <= at < |r| && r[at] == x;
      forall c | c in Betters(items, x)
        ensures c in r[..at]
      {
        RankedBefore(items, k, r, at, c);
      }
      CoverCard(r[..at], Betters(items, x));
    } else {
      DistinctCard(r, Betters(items, x));
    }
  }

  lemma RankedBefore(items: seq<Choice>, k: nat, r: seq<Choice>, at: nat, c: Choice)
    requires DistinctIds(items) && IsTop(items, k, r) && at < |r| && c in items && Better(c, r[at])
    ensures c in r[..at]
  {
    assert r[at] in items;
    var i :| 0 <= i < |items| && items[i] == c;
    var j :| 0 <= j < |items| && items[j] == r[at];
    var a :| 0 <= a < |r| && r[a] == c;
    assert a < at;
  }
}
