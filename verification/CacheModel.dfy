/** The expert cache as a value: the two-way map, the slot contents and the recency order, with the three
    elementary changes every cache call is made of (touch, reserve, publish) and what they keep. */
module CacheModel {
  import opened Wrappers
  import opened Indexing
  import opened Lists
  import opened ExpertStore

  const EMPTY: int := -1
  const INFLIGHT: int := -2

  const INT32_MAX: int := 0x7fff_ffff

  /** `key_for`: the flattened key, or -1 for ids outside the store or a key wider than 32 bits. */
  function KeyFor(s: Store, layer: int, expert: int): (key: int)
    ensures -1 <= key < s.Keys()
  {
    if layer < 0 || expert < 0 || layer >= s.nLayers || expert >= s.nExperts then -1
    else
      FlatInRange(layer, expert, s.nLayers, s.nExperts);
      var k := Flat(layer, expert, s.nExperts);
      if k > INT32_MAX then -1 else k
  }

  /** The record of a key, if it has one that fits a slot. */
  function Fetchable(s: Store, slotBytes: nat, key: int): int {
    if 0 <= key < |s.recordOf| && 0 <= s.recordOf[key] < |s.records| &&
      s.records[s.recordOf[key]].readBytes <= slotBytes
    then s.recordOf[key] else -1
  }

  /** A reserved slot: the key and the record being read into it. */
  datatype Work = Work(slot: nat, key: nat, rec: nat)

  /** `order` lists the resident keys, the most recently used first. */
  datatype Snap = Snap(slotOf: seq<int>, keyOf: seq<int>, usedAt: seq<nat>, recOf: seq<int>, arena: seq<Bytes>,
                       clock: nat, order: seq<int>)

  // ---------------------------------------------------------------- recency lists

  function IndexOf(order: seq<int>, key: int): (i: nat)
    requires key in order
    ensures i < |order| && order[i] == key
  {
    if order[0] == key then 0 else 1 + IndexOf(order[1..], key)
  }

  function Without(order: seq<int>, key: int): seq<int> {
    if key in order then order[..IndexOf(order, key)] + order[IndexOf(order, key) + 1..] else order
  }

  function Touch(order: seq<int>, key: int): seq<int> { [key] + Without(order, key) }

  /** The least recently used key outside `keep`. */
  function LastFree(order: seq<int>, keep: set<int>): (r: Option<int>)
    ensures r.None? ==> forall k | k in order :: k in keep
    ensures r.Some? ==> r.value in order && r.value !in keep
    ensures r.Some? ==>
      exists i | 0 <= i < |order| :: order[i] == r.value && forall j | i < j < |order| :: order[j] in keep
  {
    if |order| == 0 then None
    else if order[|order| - 1] !in keep then Some(order[|order| - 1])
    else
      assert order == order[..|order| - 1] + [order[|order| - 1]];
      LastFree(order[..|order| - 1], keep)
  }

  /** What is left of the residents once a slot has been found for a missing key: all of them while a slot is empty,
      else all but the least recently used key outside `keep`; nothing when every key must be kept. */
  function Kept(order: seq<int>, n: int, keep: set<int>): Option<seq<int>> {
    if |order| < n then Some(order)
    else
      var victim := LastFree(order, keep);
      if victim.None? then None else Some(Without(order, victim.value))
  }

  lemma WithoutMembers(order: seq<int>, key: int)
    requires Distinct(order)
    ensures forall k :: k in Without(order, key) <==> k in order && k != key
    ensures |Without(order, key)| == if key in order then |order| - 1 else |order|
  {
    if key in order {
      var i, w := IndexOf(order, key), Without(order, key);
      hide IndexOf;
      forall k | k in order && k != key
        ensures k in w
      {
        var j :| 0 <= j < |order| && order[j] == k;
        assert w[if j < i then j else j - 1] == k;
      }
    }
  }

  // ---------------------------------------------------------------- the invariant

  ghost predicate Shape(st: Store, slotBytes: nat, v: Snap) {
    |v.slotOf| == st.Keys() && |v.usedAt| == |v.recOf| == |v.arena| == |v.keyOf| &&
    forall i | 0 <= i < |v.arena| :: |v.arena[i]| == slotBytes
  }

  ghost predicate Reserved(work: seq<Work>, slot: int) {
    exists j :: 0 <= j < |work| && work[j].slot == slot
  }

  /** The two maps are mutually inverse on residents. */
  ghost predicate Inverse(v: Snap) {
    (forall k | 0 <= k < |v.slotOf| ::
      -1 <= v.slotOf[k] < |v.keyOf| && (v.slotOf[k] >= 0 ==> v.keyOf[v.slotOf[k]] == k)) &&
    (forall i | 0 <= i < |v.keyOf| ::
      -2 <= v.keyOf[i] < |v.slotOf| && (v.keyOf[i] >= 0 ==> v.slotOf[v.keyOf[i]] == i))
  }

  /** Exactly the reserved slots are in flight, for distinct keys that are not resident. */
  ghost predicate InFlight(v: Snap, work: seq<Work>) {
    (forall j | 0 <= j < |work| ::
      work[j].slot < |v.keyOf| && v.keyOf[work[j].slot] == INFLIGHT && work[j].key < |v.slotOf| &&
      v.slotOf[work[j].key] == -1) &&
    (forall i, j | 0 <= i < j < |work| :: work[i].slot != work[j].slot && work[i].key != work[j].key) &&
    (forall i | 0 <= i < |v.keyOf| && v.keyOf[i] == INFLIGHT :: Reserved(work, i))
  }

  ghost predicate Linked(v: Snap, work: seq<Work>) {
    Inverse(v) && InFlight(v, work)
  }

  /** A resident slot holds what a load of its key's record would leave there. */
  ghost predicate Filled(st: Store, v: Snap)
    requires |v.recOf| == |v.arena| == |v.keyOf| && |st.recordOf| == |v.slotOf|
  {
    forall i | 0 <= i < |v.keyOf| && 0 <= v.keyOf[i] < |v.slotOf| ::
      v.recOf[i] == st.recordOf[v.keyOf[i]] && Loaded(st, v.recOf[i], v.arena[i])
  }

  /** The bytes have room for the record, and loading it once more would not change them. */
  ghost predicate Loaded(st: Store, rec: int, bytes: Bytes) {
    0 <= rec < |st.records| && (st.dtype == GgufQ8 ==> rec < |st.sources|) &&
    st.records[rec].readBytes <= |bytes| && bytes == LoadInto(st, rec, bytes)
  }

  /** Time stamp of the slot that holds `k`. */
  function LastUse(v: Snap, k: int): int {
    if 0 <= k < |v.slotOf| && 0 <= v.slotOf[k] < |v.usedAt| then v.usedAt[v.slotOf[k]] else -1
  }

  /** The time stamps strictly decrease along the list. */
  ghost predicate Falling(v: Snap, order: seq<int>) {
    forall i, j | 0 <= i < j < |order| :: LastUse(v, order[i]) > LastUse(v, order[j])
  }

  /** `order` lists exactly the residents, by strictly decreasing last use. */
  ghost predicate Ordered(v: Snap) {
    Falling(v, v.order) &&
    (forall k :: k in v.order <==> 0 <= k < |v.slotOf| && v.slotOf[k] >= 0) &&
    (forall i | 0 <= i < |v.usedAt| :: v.usedAt[i] <= v.clock)
  }

  lemma WithoutMembersLen(order: seq<int>, key: int)
    requires key in order
    ensures |Without(order, key)| == |order| - 1
  {
  }

  ghost predicate Sound(st: Store, slotBytes: nat, v: Snap, work: seq<Work>) {
    Opened(st) && Shape(st, slotBytes, v) && Linked(v, work) && Filled(st, v) && Ordered(v)
  }

  // ---------------------------------------------------------------- elementary changes

  /** A hit: the slot becomes the most recently used. */
  function Hit(v: Snap, slot: nat): Snap
    requires slot < |v.usedAt| && slot < |v.keyOf|
  {
    v.(clock := v.clock + 1, usedAt := v.usedAt[slot := v.clock + 1], order := Touch(v.order, v.keyOf[slot]))
  }

  /** A reservation: the resident of the slot, if any, is evicted and the slot is marked in flight. */
  function Reserve(v: Snap, slot: nat): Snap
    requires slot < |v.usedAt| && slot < |v.keyOf| && slot < |v.recOf| && v.keyOf[slot] < |v.slotOf|
  {
    var evicted := v.keyOf[slot];
    Snap(if evicted >= 0 then v.slotOf[evicted := -1] else v.slotOf,
         v.keyOf[slot := INFLIGHT], v.usedAt[slot := v.clock + 1], v.recOf[slot := -1], v.arena, v.clock + 1,
         if evicted >= 0 then Without(v.order, evicted) else v.order)
  }

  /** A finished read: the slot becomes resident. */
  function Publish(v: Snap, w: Work, tick: nat): Snap
    requires w.slot < |v.usedAt| && w.slot < |v.keyOf| && w.slot < |v.recOf| && w.key < |v.slotOf|
  {
    Snap(v.slotOf[w.key := w.slot], v.keyOf[w.slot := w.key], v.usedAt[w.slot := tick], v.recOf[w.slot := w.rec],
         v.arena, tick,
         [w.key] + v.order)
  }

  /** A failed read: the slot is empty again. */
  function Drop(v: Snap, slot: nat): Snap
    requires slot < |v.keyOf| && slot < |v.recOf|
  {
    v.(keyOf := v.keyOf[slot := EMPTY], recOf := v.recOf[slot := -1])
  }

  lemma HitStamp(v: Snap, slot: nat, k: int)
    requires |v.usedAt| == |v.keyOf| && Inverse(v) && Ordered(v) && slot < |v.keyOf| && v.keyOf[slot] >= 0
    requires k in v.order && k != v.keyOf[slot]
    ensures LastUse(v, k) == LastUse(Hit(v, slot), k) < LastUse(Hit(v, slot), v.keyOf[slot])
  {
  }

  lemma WithoutFalls(v: Snap, order: seq<int>, key: int)
    requires Falling(v, order)
    ensures Falling(v, Without(order, key))
  {
    if key in order {
      var at, w := IndexOf(order, key), Without(order, key);
      forall i, j | 0 <= i < j < |w|
        ensures LastUse(v, w[i]) > LastUse(v, w[j])
      {
        var a, b := if i < at then i else i + 1, if j < at then j else j + 1;
        assert w[i] == order[a] && w[j] == order[b];
        hide LastUse, Without, IndexOf;
        assert LastUse(v, order[a]) > LastUse(v, order[b]);
      }
    }
  }

  /** A newest key in front of keys whose stamps did not change. */
  lemma RestFalls(v: Snap, w: Snap, key: int, rest: seq<int>)
    requires Falling(v, rest) && forall k | k in rest :: LastUse(v, k) == LastUse(w, k) < LastUse(w, key)
    ensures Falling(w, [key] + rest)
  {
    hide LastUse;
  }

  lemma HitOrdered(v: Snap, slot: nat)
    requires |v.usedAt| == |v.keyOf| && Inverse(v) && Ordered(v) && slot < |v.keyOf| && v.keyOf[slot] >= 0
    ensures Ordered(Hit(v, slot))
  {
    var key, w := v.keyOf[slot], Hit(v, slot);
    var rest := Without(v.order, key);
    assert key in v.order;
    WithoutMembers(v.order, key);
    forall k | k in rest
      ensures LastUse(v, k) == LastUse(w, k) < LastUse(w, key)
    {
      HitStamp(v, slot, k);
    }
    RestFalls(v, w, key, rest) by {
      WithoutFalls(v, v.order, key);
    }
    hide Without, Falling, LastUse, Inverse;
    assert w.order == [key] + rest;
  }

  lemma HitSound(st: Store, slotBytes: nat, v: Snap, slot: nat)
    requires Sound(st, slotBytes, v, []) && slot < |v.keyOf| && v.keyOf[slot] >= 0
    ensures Sound(st, slotBytes, Hit(v, slot), [])
  {
    HitOrdered(v, slot);
  }

  lemma ReserveOrdered(v: Snap, slot: nat)
    requires |v.usedAt| == |v.keyOf| == |v.recOf| && slot < |v.keyOf| && -1 <= v.keyOf[slot] < |v.slotOf| &&
      Inverse(v) && Ordered(v)
    ensures Ordered(Reserve(v, slot))
  {
    var key, w := v.keyOf[slot], Reserve(v, slot);
    WithoutMembers(v.order, key);
    WithoutFalls(v, v.order, key);
    assert key == -1 ==> key !in v.order;
    assert key == -1 ==> w.order == v.order == Without(v.order, key);
    hide Without, Distinct;
    forall k | k in w.order
      ensures LastUse(v, k) == LastUse(w, k)
    {
    }
  }

  lemma ReserveInFlight(v: Snap, work: seq<Work>, slot: nat, key: nat, rec: nat)
    requires |v.usedAt| == |v.keyOf| == |v.recOf| && InFlight(v, work)
    requires slot < |v.keyOf| && -1 <= v.keyOf[slot] < |v.slotOf| && key < |v.slotOf| && v.slotOf[key] == -1
    requires forall j | 0 <= j < |work| :: work[j].key != key
    ensures InFlight(Reserve(v, slot), work + [Work(slot, key, rec)])
  {
    var w, more := Reserve(v, slot), work + [Work(slot, key, rec)];
    forall j | 0 <= j < |work|
      ensures more[j] == work[j] && work[j].slot != slot && w.slotOf[work[j].key] == -1
    {
    }
    forall i | 0 <= i < |w.keyOf| && w.keyOf[i] == INFLIGHT
      ensures Reserved(more, i)
    {
      if i == slot {
        assert more[|work|].slot == slot;
      } else {
        assert Reserved(work, i);
        var j :| 0 <= j < |work| && work[j].slot == i;
        assert more[j].slot == i;
      }
    }
  }

  lemma ReserveSound(st: Store, slotBytes: nat, v: Snap, work: seq<Work>, slot: nat, key: nat, rec: nat)
    requires Sound(st, slotBytes, v, work)
    requires slot < |v.keyOf| && v.keyOf[slot] >= -1 && key < |v.slotOf| && v.slotOf[key] == -1
    requires forall j | 0 <= j < |work| :: work[j].key != key
    ensures Sound(st, slotBytes, Reserve(v, slot), work + [Work(slot, key, rec)])
  {
    ReserveOrdered(v, slot);
    ReserveInFlight(v, work, slot, key, rec);
    hide Inverse, InFlight, Filled, Ordered;
  }

  /** Once the first reservation is settled, by a resident or an empty slot, the others stay in flight. */
  lemma SettledInFlight(v: Snap, work: seq<Work>, p: Snap)
    requires InFlight(v, work) && |work| > 0 && |p.keyOf| == |v.keyOf| && |p.slotOf| == |v.slotOf|
    requires p.keyOf[work[0].slot] != INFLIGHT &&
      forall i | 0 <= i < |v.keyOf| && i != work[0].slot :: p.keyOf[i] == v.keyOf[i]
    requires forall k | 0 <= k < |v.slotOf| && k != work[0].key :: p.slotOf[k] == v.slotOf[k]
    ensures InFlight(p, work[1..])
  {
    var rest := work[1..];
    forall i | 0 <= i < |p.keyOf| && p.keyOf[i] == INFLIGHT
      ensures Reserved(rest, i)
    {
      assert Reserved(work, i);
      var j :| 0 <= j < |work| && work[j].slot == i;
      assert rest[j - 1].slot == i;
    }
    forall j | 0 <= j < |rest|
      ensures rest[j].slot < |p.keyOf| && p.keyOf[rest[j].slot] == INFLIGHT && rest[j].key < |p.slotOf| &&
        p.slotOf[rest[j].key] == -1
    {
      assert rest[j] == work[j + 1];
    }
  }

  lemma PublishLinked(v: Snap, work: seq<Work>, tick: nat)
    requires |v.usedAt| == |v.keyOf| == |v.recOf| && |work| > 0 && Linked(v, work)
    ensures Linked(Publish(v, work[0], tick), work[1..])
  {
    SettledInFlight(v, work, Publish(v, work[0], tick));
    hide Inverse;
  }

  lemma PublishOrdered(v: Snap, w: Work, tick: nat)
    requires |v.usedAt| == |v.keyOf| == |v.recOf| && Ordered(v)
    requires w.slot < |v.keyOf| && w.key < |v.slotOf| && v.slotOf[w.key] == -1 && tick >= v.clock
    requires forall k | k in v.order :: v.slotOf[k] != w.slot && LastUse(v, k) < tick
    ensures Ordered(Publish(v, w, tick))
  {
    var p := Publish(v, w, tick);
    hide Falling;
    forall k | k in v.order
      ensures LastUse(v, k) == LastUse(p, k) < LastUse(p, w.key)
    {
    }
    RestFalls(v, p, w.key, v.order);
  }

  lemma PublishSound(st: Store, slotBytes: nat, v: Snap, work: seq<Work>, tick: nat)
    requires Sound(st, slotBytes, v, work) && |work| > 0 && tick >= v.clock
    requires forall k | k in v.order :: LastUse(v, k) < tick
    requires work[0].rec == st.recordOf[work[0].key] && Loaded(st, work[0].rec, v.arena[work[0].slot])
    ensures Sound(st, slotBytes, Publish(v, work[0], tick), work[1..])
  {
    PublishOrdered(v, work[0], tick);
    PublishLinked(v, work, tick);
    hide Linked, Ordered;
  }

  function Removed<T>(s: seq<T>, j: nat): (r: seq<T>)
    requires j < |s|
    ensures |r| == |s| - 1
  {
    s[..j] + s[j + 1..]
  }

  function Turned(j: nat, i: nat): nat { if i == 0 then j else if i <= j then i - 1 else i }

  lemma TurnedAt(work: seq<Work>, j: nat, i: nat)
    requires j < |work| && i < |work|
    ensures Turned(j, i) < |work| && ([work[j]] + Removed(work, j))[i] == work[Turned(j, i)]
    ensures exists a: nat :: a < |work| && Turned(j, a) == i
    ensures forall k: nat | k != i :: Turned(j, k) != Turned(j, i)
  {
    var a := if i == j then 0 else if i < j then i + 1 else i;
    assert Turned(j, a) == i;
  }

  /** Reservations may be taken up in any order. */
  lemma RotateInFlight(v: Snap, work: seq<Work>, j: nat)
    requires InFlight(v, work) && j < |work|
    ensures InFlight(v, [work[j]] + Removed(work, j))
  {
    var turned := [work[j]] + Removed(work, j);
    hide Removed, Turned;
    assert |turned| == |work|;
    forall i | 0 <= i < |turned|
      ensures Turned(j, i) < |work| && turned[i] == work[Turned(j, i)]
    {
      TurnedAt(work, j, i);
    }
    forall i, k | 0 <= i < k < |turned|
      ensures turned[i].slot != turned[k].slot && turned[i].key != turned[k].key
    {
      TurnedAt(work, j, i);
      var a, b := Turned(j, i), Turned(j, k);
      assert a < b || b < a;
    }
    forall i | 0 <= i < |v.keyOf| && v.keyOf[i] == INFLIGHT
      ensures Reserved(turned, i)
    {
      assert Reserved(work, i);
      var a :| 0 <= a < |work| && work[a].slot == i;
      TurnedAt(work, j, a);
      var b: nat :| b < |work| && Turned(j, b) == a;
      assert turned[b].slot == i;
    }
  }

  lemma DropSound(st: Store, slotBytes: nat, v: Snap, work: seq<Work>)
    requires Sound(st, slotBytes, v, work) && |work| > 0
    ensures Sound(st, slotBytes, Drop(v, work[0].slot), work[1..])
  {
    var p := Drop(v, work[0].slot);
    SettledInFlight(v, work, p);
    DropOrdered(v, work[0].slot);
    DropFilled(st, v, work[0].slot);
    hide InFlight, Filled, Ordered;
  }

  lemma DropOrdered(v: Snap, slot: nat)
    requires Ordered(v) && slot < |v.keyOf| == |v.recOf|
    ensures Ordered(Drop(v, slot))
  {
    var p := Drop(v, slot);
    forall k
      ensures LastUse(p, k) == LastUse(v, k)
    {
    }
    hide LastUse;
  }

  lemma DropFilled(st: Store, v: Snap, slot: nat)
    requires |v.recOf| == |v.arena| == |v.keyOf| && |st.recordOf| == |v.slotOf| && Filled(st, v) && slot < |v.keyOf|
    ensures Filled(st, Drop(v, slot))
  {
    hide Loaded;
  }

  // ---------------------------------------------------------------- occupancy

  function SlotAt(v: Snap, k: int): int {
    if 0 <= k < |v.slotOf| then v.slotOf[k] else EMPTY
  }

  function ResidentSlots(v: Snap): seq<int> {
    seq(|v.order|, i requires 0 <= i < |v.order| => SlotAt(v, v.order[i]))
  }

  function WorkSlots(work: seq<Work>): seq<int> {
    seq(|work|, j requires 0 <= j < |work| => work[j].slot)
  }

  /** The slots of the residents and of the reservations. */
  function UsedSlots(v: Snap, work: seq<Work>): seq<int> {
    ResidentSlots(v) + WorkSlots(work)
  }

  lemma ResidentSlotsDistinct(v: Snap)
    requires |v.usedAt| == |v.keyOf| && Inverse(v) && Ordered(v)
    ensures Distinct(ResidentSlots(v))
    ensures forall x | x in ResidentSlots(v) :: 0 <= x < |v.keyOf| && v.keyOf[x] >= 0
    ensures forall i | 0 <= i < |v.keyOf| && v.keyOf[i] >= 0 :: i in ResidentSlots(v)
  {
    var used := ResidentSlots(v);
    forall i | 0 <= i < |v.order|
      ensures 0 <= used[i] < |v.keyOf| && v.keyOf[used[i]] == v.order[i] >= 0
    {
      var k := v.order[i];
      assert k in v.order;
    }
    forall i | 0 <= i < |v.keyOf| && v.keyOf[i] >= 0
      ensures i in used
    {
      var key := v.keyOf[i];
      assert key in v.order;
      var k :| 0 <= k < |v.order| && v.order[k] == key;
      assert used[k] == i;
    }
  }

  lemma WorkSlotsDistinct(v: Snap, work: seq<Work>)
    requires InFlight(v, work)
    ensures Distinct(WorkSlots(work))
    ensures forall x | x in WorkSlots(work) :: 0 <= x < |v.keyOf| && v.keyOf[x] == INFLIGHT
    ensures forall i | 0 <= i < |v.keyOf| && v.keyOf[i] == INFLIGHT :: i in WorkSlots(work)
  {
    forall i | 0 <= i < |v.keyOf| && v.keyOf[i] == INFLIGHT
      ensures i in WorkSlots(work)
    {
      assert Reserved(work, i);
      var j :| 0 <= j < |work| && work[j].slot == i;
      assert WorkSlots(work)[j] == i;
    }
  }

  lemma UsedSlotsDistinct(v: Snap, work: seq<Work>)
    requires |v.usedAt| == |v.keyOf| && Inverse(v) && InFlight(v, work) && Ordered(v)
    ensures Distinct(UsedSlots(v, work)) && forall x | x in UsedSlots(v, work) :: x in Upto(|v.keyOf|)
    ensures forall x | x in UsedSlots(v, work) :: v.keyOf[x] != EMPTY
    ensures forall i | 0 <= i < |v.keyOf| && v.keyOf[i] != EMPTY :: i in UsedSlots(v, work)
  {
    ResidentSlotsDistinct(v);
    WorkSlotsDistinct(v, work);
    var a, b := ResidentSlots(v), WorkSlots(work);
    hide InFlight, Ordered, ResidentSlots, WorkSlots;
    forall i | 0 <= i < |v.keyOf| && v.keyOf[i] != EMPTY
      ensures i in a + b
    {
      assert v.keyOf[i] >= -2;
      assert i in a || i in b;
    }
    forall i, j | 0 <= i < j < |a + b|
      ensures (a + b)[i] != (a + b)[j]
    {
      if i < |a| <= j {
        assert a[i] in a && b[j - |a|] in b;
      }
    }
  }

  /** Residents and reservations fill the slots one for one; no slot is empty exactly when they fill them all. */
  lemma Occupancy(v: Snap, work: seq<Work>)
    requires |v.usedAt| == |v.keyOf| && Inverse(v) && InFlight(v, work) && Ordered(v)
    ensures |v.order| + |work| <= |v.keyOf|
    ensures |v.order| + |work| == |v.keyOf| <==> forall i | 0 <= i < |v.keyOf| :: v.keyOf[i] != EMPTY
  {
    var used, all := UsedSlots(v, work), Upto(|v.keyOf|);
    UsedSlotsDistinct(v, work);
    DistinctCard(used, all);
    if forall i | 0 <= i < |v.keyOf| :: v.keyOf[i] != EMPTY {
      CoverCard(used, all);
    }
    if |used| == |all| {
      forall i | 0 <= i < |v.keyOf|
        ensures v.keyOf[i] != EMPTY
      {
        assert i in all && i in used;
      }
    }
  }

  function WorkKeys(work: seq<Work>): seq<int> {
    seq(|work|, j requires 0 <= j < |work| => work[j].key)
  }

  // ---------------------------------------------------------------- the victim

  predicate Candidate(v: Snap, keep: set<int>, i: int) {
    0 <= i < |v.keyOf| && v.keyOf[i] >= 0 && v.keyOf[i] !in keep
  }

  /** What `pick_victim` returns: the first empty slot, else the least recently used slot outside `keep`, else -1. */
  ghost predicate IsVictim(v: Snap, keep: set<int>, r: int)
    requires |v.usedAt| == |v.keyOf|
  {
    -1 <= r < |v.keyOf| &&
    (r == -1 ==> forall i | 0 <= i < |v.keyOf| :: v.keyOf[i] != EMPTY && !Candidate(v, keep, i)) &&
    (r >= 0 && v.keyOf[r] == EMPTY ==> forall i | 0 <= i < r :: v.keyOf[i] != EMPTY) &&
    (r >= 0 && v.keyOf[r] != EMPTY ==>
      Candidate(v, keep, r) && (forall i | 0 <= i < |v.keyOf| :: v.keyOf[i] != EMPTY) &&
      forall i | Candidate(v, keep, i) :: v.usedAt[r] <= v.usedAt[i])
  }

  /** When no slot is empty the victim holds the least recently used key outside `keep`. */
  lemma VictimIsLastFree(v: Snap, work: seq<Work>, keep: set<int>, r: int)
    requires |v.usedAt| == |v.keyOf| && Inverse(v) && InFlight(v, work) && Ordered(v) && IsVictim(v, keep, r)
    ensures r >= 0 && v.keyOf[r] == EMPTY ==> |v.order| + |work| < |v.keyOf|
    ensures r == -1 || v.keyOf[r] != EMPTY ==> |v.order| + |work| == |v.keyOf|
    ensures r == -1 ==> LastFree(v.order, keep) == None
    ensures r >= 0 && v.keyOf[r] != EMPTY ==> LastFree(v.order, keep) == Some(v.keyOf[r])
  {
    Occupancy(v, work);
    var last := LastFree(v.order, keep);
    if last.Some? {
      assert Candidate(v, keep, v.slotOf[last.value]);
    }
    if r >= 0 && v.keyOf[r] != EMPTY {
      assert v.keyOf[r] in v.order;
      LastFreeOldest(v, keep, v.keyOf[r]);
      assert Candidate(v, keep, v.slotOf[last.value]);
      SameStamp(v, v.keyOf[r], last.value);
    }
  }

  lemma LastFreeOldest(v: Snap, keep: set<int>, key: int)
    requires Falling(v, v.order) && key in v.order && key !in keep
    ensures LastFree(v.order, keep).Some? && LastUse(v, LastFree(v.order, keep).value) <= LastUse(v, key)
  {
    hide LastUse;
    var order, last := v.order, LastFree(v.order, keep).value;
    var i :| 0 <= i < |order| && order[i] == last && forall j | i < j < |order| :: order[j] in keep;
    var j :| 0 <= j < |order| && order[j] == key;
    assert j < i ==> LastUse(v, order[j]) > LastUse(v, order[i]);
  }

  lemma SameStamp(v: Snap, a: int, b: int)
    requires Falling(v, v.order) && a in v.order && b in v.order && LastUse(v, a) == LastUse(v, b)
    ensures a == b
  {
    hide LastUse;
    var i :| 0 <= i < |v.order| && v.order[i] == a;
    var j :| 0 <= j < |v.order| && v.order[j] == b;
    assert LastUse(v, v.order[i]) == LastUse(v, v.order[j]);
  }
}
