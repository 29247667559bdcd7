/** Which slots one batch of expert ids takes: the reservation phase of a batched load, as a value. */
module BatchPlan {
  import opened Wrappers
  import opened ExpertStore
  import opened CacheModel
  import opened Lists

  /** The residents left, by recency, and the keys that got a slot, in the order they got it. */
  datatype Plan = Plan(order: seq<int>, taken: seq<int>)

  /** One id of the batch.  Ids outside the store, residents, duplicates and experts without a usable record are
      passed over; without a slot to use the whole phase stops. */
  function Step(st: Store, slotBytes: nat, n: nat, keep: set<int>, p: Plan, key: int): Option<Plan> {
    if key < 0 || key in p.order || key in p.taken || Fetchable(st, slotBytes, key) < 0 then Some(p)
    else
      var left := Kept(p.order, n - |p.taken|, keep);
      if left.None? then None else Some(Plan(left.value, p.taken + [key]))
  }

  function Reserving(st: Store, slotBytes: nat, n: nat, keep: set<int>, keys: seq<int>, p: Plan): Plan {
    if |keys| == 0 then p
    else
      var next := Step(st, slotBytes, n, keep, p, keys[0]);
      if next.None? then p else Reserving(st, slotBytes, n, keep, keys[1..], next.value)
  }

  /** `x` was used more recently than `y`. */
  ghost predicate Before(order: seq<int>, x: int, y: int) {
    exists i, j :: 0 <= i < j < |order| && order[i] == x && order[j] == y
  }

  ghost predicate Fits(n: nat, p: Plan) {
    Distinct(p.order) && Distinct(p.taken) && |p.order| + |p.taken| <= n && forall k | k in p.taken :: k !in p.order
  }

  /** `q` comes from `p` by reservations: nothing in `keep` is lost, what goes is older than what stays (but for
      `keep`), and something goes only when every slot is used. */
  ghost predicate Later(n: nat, keep: set<int>, p: Plan, q: Plan) {
    Fits(n, q) && p.taken <= q.taken && |p.order| + |p.taken| <= |q.order| + |q.taken| &&
    (forall k | k in q.order :: k in p.order) &&
    (forall k | k in p.order && k in keep :: k in q.order) &&
    (forall x, y | Before(p.order, x, y) && x !in q.order && y in q.order :: y in keep) &&
    (forall x, y | Before(q.order, x, y) :: Before(p.order, x, y)) &&
    (|q.order| < |p.order| ==> |q.order| + |q.taken| == n)
  }

  lemma WithoutDistinct(order: seq<int>, key: int)
    requires Distinct(order)
    ensures Distinct(Without(order, key))
  {
  }

  lemma WithoutBefore(order: seq<int>, key: int, x: int, y: int)
    requires Before(Without(order, key), x, y)
    ensures Before(order, x, y)
  {
    if key in order {
      var i, j :| 0 <= i < j < |Without(order, key)| && Without(order, key)[i] == x && Without(order, key)[j] == y;
      var at := IndexOf(order, key);
      var a, b := if i < at then i else i + 1, if j < at then j else j + 1;
      assert order[a] == x && order[b] == y;
    }
  }

  lemma AfterLast(order: seq<int>, keep: set<int>, x: int, y: int)
    requires Distinct(order) && LastFree(order, keep) == Some(x) && Before(order, x, y)
    ensures y in keep
  {
    var at :| 0 <= at < |order| && order[at] == x && forall j | at < j < |order| :: order[j] in keep;
    var i, j :| 0 <= i < j < |order| && order[i] == x && order[j] == y;
    assert i == at;
  }

  lemma KeptFacts(order: seq<int>, n: int, keep: set<int>)
    requires Distinct(order) && Kept(order, n, keep).Some?
    ensures var q := Kept(order, n, keep).value;
            Distinct(q) && (forall k | k in q :: k in order) && (forall k | k in order && k in keep :: k in q) &&
            (forall x, y | Before(order, x, y) && x !in q && y in q :: y in keep) &&
            (forall x, y | Before(q, x, y) :: Before(order, x, y)) &&
            |q| == if |order| < n then |order| else |order| - 1
  {
    hide Without, Before;
    if |order| >= n {
      var last := LastFree(order, keep).value;
      var q := Without(order, last);
      WithoutMembers(order, last);
      WithoutDistinct(order, last);
      forall x, y | Before(q, x, y)
        ensures Before(order, x, y)
      {
        WithoutBefore(order, last, x, y);
      }
      forall x, y | Before(order, x, y) && x !in q && y in q
        ensures y in keep
      {
        InBefore(order, x, y);
        AfterLast(order, keep, x, y);
      }
    } else {
      forall x, y | Before(order, x, y)
        ensures x in order
      {
        InBefore(order, x, y);
      }
    }
  }

  lemma InBefore(order: seq<int>, x: int, y: int)
    requires Before(order, x, y)
    ensures x in order && y in order
  {
  }

  lemma OneWay(order: seq<int>, x: int, y: int)
    requires Distinct(order) && x in order && y in order && x != y
    ensures Before(order, x, y) || Before(order, y, x)
    ensures !(Before(order, x, y) && Before(order, y, x))
  {
    var i :| 0 <= i < |order| && order[i] == x;
    var j :| 0 <= j < |order| && order[j] == y;
    assert i < j || j < i;
  }

  lemma LaterRefl(n: nat, keep: set<int>, p: Plan)
    requires Fits(n, p)
    ensures Later(n, keep, p, p)
  {
    forall x, y | Before(p.order, x, y)
      ensures x in p.order
    {
    }
  }

  lemma StepLater(st: Store, slotBytes: nat, n: nat, keep: set<int>, p: Plan, key: int)
    requires Fits(n, p) && Step(st, slotBytes, n, keep, p, key).Some?
    ensures Later(n, keep, p, Step(st, slotBytes, n, keep, p, key).value)
  {
    hide Kept, Fetchable, Before;
    var q := Step(st, slotBytes, n, keep, p, key).value;
    if q != p {
      KeptFacts(p.order, n - |p.taken|, keep);
    } else {
      LaterRefl(n, keep, p);
    }
  }

  lemma LaterTrans(n: nat, keep: set<int>, p: Plan, q: Plan, r: Plan)
    requires Fits(n, p) && Later(n, keep, p, q) && Later(n, keep, q, r)
    ensures Later(n, keep, p, r)
  {
    hide Before;
    forall x, y | Before(p.order, x, y) && x !in r.order && y in r.order
      ensures y in keep
    {
      InBefore(p.order, x, y);
      if x in q.order {
        OneWay(q.order, x, y);
        OneWay(p.order, x, y);
      }
    }
  }

  /** What a reservation phase keeps, whatever the batch. */
  lemma {:induction false} ReservingKeeps(st: Store, slotBytes: nat, n: nat, keep: set<int>, keys: seq<int>, p: Plan)
    requires Fits(n, p)
    ensures Later(n, keep, p, Reserving(st, slotBytes, n, keep, keys, p))
    decreases |keys|
  {
    hide Step, Later;
    LaterRefl(n, keep, p);
    if |keys| > 0 {
      var next := Step(st, slotBytes, n, keep, p, keys[0]);
      if next.Some? {
        StepLater(st, slotBytes, n, keep, p, keys[0]);
        LaterFits(n, keep, p, next.value);
        ReservingKeeps(st, slotBytes, n, keep, keys[1..], next.value);
        LaterTrans(n, keep, p, next.value, Reserving(st, slotBytes, n, keep, keys[1..], next.value));
      }
    }
  }

  lemma LaterFits(n: nat, keep: set<int>, p: Plan, q: Plan)
    requires Later(n, keep, p, q)
    ensures Fits(n, q)
  {
  }

  lemma StepTakes(st: Store, slotBytes: nat, n: nat, keep: set<int>, p: Plan, key: int)
    requires Step(st, slotBytes, n, keep, p, key).Some?
    ensures forall k | k in Step(st, slotBytes, n, keep, p, key).value.taken && k !in p.taken ::
              k == key && key >= 0 && Fetchable(st, slotBytes, key) >= 0
  {
  }

  /** What got a slot are distinct keys of the batch that have a record and were not resident. */
  lemma {:induction false} ReservingTakes(st: Store, slotBytes: nat, n: nat, keep: set<int>, keys: seq<int>, p: Plan)
    requires Fits(n, p)
    ensures var q := Reserving(st, slotBytes, n, keep, keys, p);
            forall k | k in q.taken && k !in p.taken :: k in keys && k >= 0 && Fetchable(st, slotBytes, k) >= 0
    decreases |keys|
  {
    if |keys| > 0 {
      var next := Step(st, slotBytes, n, keep, p, keys[0]);
      if next.Some? {
        StepLater(st, slotBytes, n, keep, p, keys[0]);
        StepTakes(st, slotBytes, n, keep, p, keys[0]);
        hide Fetchable, Step, Before, Kept;
        ReservingTakes(st, slotBytes, n, keep, keys[1..], next.value);
      }
    }
  }

  /** Pigeonhole: a phase stops early only when the kept keys need more slots than there are. */
  lemma StopsShort(st: Store, slotBytes: nat, n: nat, keep: set<int>, p: Plan, key: int)
    requires Fits(n, p) && key in keep && (forall k | k in p.taken :: k in keep)
    requires Step(st, slotBytes, n, keep, p, key).None?
    ensures n < |keep|
  {
    hide Before, Fetchable;
    var all := p.order + p.taken;
    forall x | x in all
      ensures x in keep - {key}
    {
    }
    assert Distinct(all) by {
      forall i, j | 0 <= i < j < |all|
        ensures all[i] != all[j]
      {
        if i < |p.order| <= j {
          assert all[i] in p.order && all[j] in p.taken;
        }
      }
    }
    DistinctCard(all, keep - {key});
  }

  /** The pin budget: when the slots can hold the kept keys, every usable key of the batch is resident or loaded. */
  lemma {:induction false} ReservingServes(st: Store, slotBytes: nat, n: nat, keep: set<int>, keys: seq<int>, p: Plan)
    requires Fits(n, p) && |keep| <= n
    requires (forall k | k in keys && k >= 0 :: k in keep) && (forall k | k in p.taken :: k in keep)
    ensures var q := Reserving(st, slotBytes, n, keep, keys, p);
            forall k | k in keys && k >= 0 && Fetchable(st, slotBytes, k) >= 0 :: k in q.order || k in q.taken
    decreases |keys|
  {
    if |keys| > 0 {
      var next := Step(st, slotBytes, n, keep, p, keys[0]);
      if next.None? {
        StopsShort(st, slotBytes, n, keep, p, keys[0]);
      } else {
        StepLater(st, slotBytes, n, keep, p, keys[0]);
        var q := Reserving(st, slotBytes, n, keep, keys, p);
        ReservingServes(st, slotBytes, n, keep, keys[1..], next.value);
        ReservingKeeps(st, slotBytes, n, keep, keys[1..], next.value);
        hide Before, Kept;
        var k := keys[0];
        if k >= 0 && Fetchable(st, slotBytes, k) >= 0 {
          assert k in next.value.order || k in next.value.taken;
        }
      }
    }
  }

  // ---------------------------------------------------------------- batches without pins

  /** The keys of the batch that need a slot. */
  function Missing(st: Store, slotBytes: nat, keys: seq<int>, order: seq<int>): set<int> {
    set k | k in keys && k >= 0 && k !in order && Fetchable(st, slotBytes, k) >= 0
  }

  function Least(a: int, b: int): int { if a < b then a else b }

  /** Without pins the residents left are the newest ones, as many as the reservations leave room for. */
  ghost predicate Newest(order: seq<int>, n: nat, p: Plan) {
    |p.taken| <= n && |p.order| == Least(|order|, n - |p.taken|) && p.order == order[..|p.order|]
  }

  lemma LastGoes(order: seq<int>)
    requires Distinct(order) && |order| > 0
    ensures LastFree(order, {}) == Some(order[|order| - 1])
    ensures Without(order, order[|order| - 1]) == order[..|order| - 1]
  {
    assert IndexOf(order, order[|order| - 1]) == |order| - 1;
  }

  lemma StepNewest(st: Store, slotBytes: nat, n: nat, order: seq<int>, p: Plan, key: int)
    requires Distinct(order) && Newest(order, n, p)
    ensures Step(st, slotBytes, n, {}, p, key).None? ==> |p.taken| == n
    ensures Step(st, slotBytes, n, {}, p, key).Some? ==> Newest(order, n, Step(st, slotBytes, n, {}, p, key).value)
  {
    hide Fetchable, Without, LastFree;
    if |p.order| > 0 {
      LastGoes(p.order);
    } else {
      assert LastFree([], {}) == None;
    }
  }

  /** At the end the residents left are the newest ones, and every missing key has a slot unless the slots ran out. */
  lemma {:induction false} ReservingNewest(st: Store, slotBytes: nat, n: nat, order: seq<int>, keys: seq<int>, p: Plan)
    requires Fits(n, p) && Distinct(order) && Newest(order, n, p)
    ensures var q := Reserving(st, slotBytes, n, {}, keys, p);
            Newest(order, n, q) && forall k | k in Missing(st, slotBytes, keys, order) :: k in q.taken || |q.taken| == n
    decreases |keys|
  {
    if |keys| > 0 {
      var next := Step(st, slotBytes, n, {}, p, keys[0]);
      StepNewest(st, slotBytes, n, order, p, keys[0]);
      if next.Some? {
        StepLater(st, slotBytes, n, {}, p, keys[0]);
        ReservingNewest(st, slotBytes, n, order, keys[1..], next.value);
        ReservingKeeps(st, slotBytes, n, {}, keys[1..], next.value);
        var q := Reserving(st, slotBytes, n, {}, keys, p);
        forall k | k in Missing(st, slotBytes, keys, order)
          ensures k in q.taken || |q.taken| == n
        {
          if k == keys[0] {
            assert k !in p.order && k in next.value.taken;
          } else {
            assert k in keys[1..];
          }
        }
      }
    }
  }

  /** One step, while every resident of the batch still has room behind the missing keys: only a missing key takes a
      slot. */
  lemma StepMissing(st: Store, slotBytes: nat, n: nat, order: seq<int>, all: seq<int>, p: Plan, key: int)
    requires Fits(n, p) && Newest(order, n, p) && key in all && Step(st, slotBytes, n, {}, p, key).Some?
    requires forall i | 0 <= i < |order| && order[i] in all :: |Missing(st, slotBytes, all, order)| + i < n
    requires forall k | k in p.taken :: k in Missing(st, slotBytes, all, order)
    ensures forall k | k in Step(st, slotBytes, n, {}, p, key).value.taken :: k in Missing(st, slotBytes, all, order)
  {
    var m := Missing(st, slotBytes, all, order);
    forall k | k in p.taken
      ensures k in m
    {
    }
    DistinctCard(p.taken, m);
    if key in order {
      var i :| 0 <= i < |order| && order[i] == key;
      assert p.order[i] == key;
    }
  }

  lemma {:induction false} OnlyMissing(st: Store, slotBytes: nat, n: nat, order: seq<int>, all: seq<int>,
                                       keys: seq<int>, p: Plan)
    requires Fits(n, p) && Distinct(order) && Newest(order, n, p) && forall k | k in keys :: k in all
    requires forall i | 0 <= i < |order| && order[i] in all :: |Missing(st, slotBytes, all, order)| + i < n
    requires forall k | k in p.taken :: k in Missing(st, slotBytes, all, order)
    ensures forall k | k in Reserving(st, slotBytes, n, {}, keys, p).taken :: k in Missing(st, slotBytes, all, order)
    decreases |keys|
  {
    if |keys| > 0 {
      var next := Step(st, slotBytes, n, {}, p, keys[0]);
      if next.Some? {
        StepNewest(st, slotBytes, n, order, p, keys[0]);
        StepLater(st, slotBytes, n, {}, p, keys[0]);
        StepMissing(st, slotBytes, n, order, all, p, keys[0]);
        hide Missing, Step, Before;
        OnlyMissing(st, slotBytes, n, order, all, keys[1..], next.value);
      }
    }
  }

  /** A resident of the batch that is too far down the recency list for the missing keys to leave it its slot. */
  ghost predicate Crowded(st: Store, slotBytes: nat, n: nat, keys: seq<int>, order: seq<int>) {
    exists i | 0 <= i < |order| :: order[i] in keys && |Missing(st, slotBytes, keys, order)| + i >= n
  }

  lemma InPrefix(order: seq<int>, m: nat, i: nat)
    requires Distinct(order) && m <= |order| && i < |order|
    ensures order[i] in order[..m] <==> i < m
  {
    if i < m {
      assert order[..m][i] == order[i];
    }
  }

  /** A resident is left exactly when its place and the reservations fit the slots. */
  lemma LeftIff(order: seq<int>, n: nat, q: Plan, i: nat)
    requires Distinct(order) && Newest(order, n, q) && i < |order|
    ensures order[i] in q.order <==> |q.taken| + i < n
  {
    InPrefix(order, |q.order|, i);
  }

  /** With every missing key served, or no slot left, a resident too far down has lost its slot. */
  lemma CrowdedLoses(order: seq<int>, n: nat, q: Plan, missing: set<int>, i: nat)
    requires Distinct(order) && Newest(order, n, q) && i < |order| && |missing| + i >= n
    requires forall k | k in missing :: k in q.taken || |q.taken| == n
    ensures order[i] !in q.order
  {
    LeftIff(order, n, q, i);
    if |q.taken| < n {
      forall k | k in missing
        ensures k in q.taken
      {
      }
      CoverCard(q.taken, missing);
    }
  }

  /** With only missing keys served, a resident near enough to the top has kept it. */
  lemma RoomyKeeps(order: seq<int>, n: nat, q: Plan, missing: set<int>, i: nat)
    requires Distinct(order) && Newest(order, n, q) && i < |order| && |missing| + i < n
    requires Distinct(q.taken) && forall k | k in q.taken :: k in missing
    ensures order[i] in q.order
  {
    LeftIff(order, n, q, i);
    forall k | k in q.taken
      ensures k in missing
    {
    }
    DistinctCard(q.taken, missing);
  }

  /** The residents of the batch that lost their slot, given how many keys got one. */
  lemma OwnMembersIff(order: seq<int>, n: nat, q: Plan, keys: seq<int>, missing: set<int>)
    requires Distinct(order) && Newest(order, n, q) && Distinct(q.taken)
    requires forall k | k in missing :: k in q.taken || |q.taken| == n
    requires (forall i | 0 <= i < |order| && order[i] in keys :: |missing| + i < n) ==>
      forall k | k in q.taken :: k in missing
    ensures (exists k :: k in keys && k in order && k !in q.order) <==>
            exists i | 0 <= i < |order| :: order[i] in keys && |missing| + i >= n
  {
    hide Newest;
    if exists i | 0 <= i < |order| :: order[i] in keys && |missing| + i >= n {
      var i :| 0 <= i < |order| && order[i] in keys && |missing| + i >= n;
      CrowdedLoses(order, n, q, missing, i);
      var k := order[i];
      assert k in keys && k in order && k !in q.order;
    } else {
      forall k | k in keys && k in order
        ensures k in q.order
      {
        var i :| 0 <= i < |order| && order[i] == k;
        RoomyKeeps(order, n, q, missing, i);
      }
    }
  }

  /** Without pins nothing protects the batch.  It evicts a resident member of its own if and only if, for some resident
      member, the residents from the newest down to it and the missing keys together are more than the slots. */
  lemma EvictsOwnMemberIff(st: Store, slotBytes: nat, n: nat, keys: seq<int>, order: seq<int>)
    requires Distinct(order) && |order| <= n
    ensures var left := Reserving(st, slotBytes, n, {}, keys, Plan(order, [])).order;
            (exists k :: k in keys && k in order && k !in left) <==> Crowded(st, slotBytes, n, keys, order)
  {
    var p, m := Plan(order, []), Missing(st, slotBytes, keys, order);
    var q := Reserving(st, slotBytes, n, {}, keys, p);
    assert order[..|order|] == order;
    ReservingNewest(st, slotBytes, n, order, keys, p);
    ReservingKeeps(st, slotBytes, n, {}, keys, p);
    hide Before, Missing, Newest, Kept;
    if !Crowded(st, slotBytes, n, keys, order) {
      OnlyMissing(st, slotBytes, n, order, keys, keys, p);
    }
    OwnMembersIff(order, n, q, keys, m);
  }

  /** It does happen, with two slots and one missing key. */
  lemma BatchEvictsOwnMember(st: Store, slotBytes: nat)
    requires Fetchable(st, slotBytes, 2) >= 0
    ensures Reserving(st, slotBytes, 2, {}, [0, 2], Plan([1, 0], [])) == Plan([1], [2])
  {
    var p := Plan([1, 0], []);
    assert Step(st, slotBytes, 2, {}, p, 0) == Some(p);
    assert LastFree([1, 0], {}) == Some(0);
    assert IndexOf([1, 0], 0) == 1 && Without([1, 0], 0) == [1];
    assert Kept(p.order, 2 - |p.taken|, {}) == Some([1]);
    assert p.taken + [2] == [2];
    assert Step(st, slotBytes, 2, {}, p, 2) == Some(Plan([1], [2]));
    assert [0, 2][1..] == [2] && [2][1..] == [];
    assert Reserving(st, slotBytes, 2, {}, [2], p) == Plan([1], [2]);
  }
}
