/** The bounded expert cache.  Reads may finish in any order and any of them may fail; the fields stay coherent
    over every call. */
module ExpertCache {
  import opened Wrappers
  import opened Indexing
  import opened ExpertStore
  import opened CacheModel
  import opened Lists
  import opened BatchPlan
  import opened GgufIndex

  /** The key of every id of a batch, -1 where there is none. */
  function KeysFor(s: Store, layer: int, experts: seq<int>): (keys: seq<int>)
    ensures |keys| == |experts| &&
      forall i | 0 <= i < |keys| :: keys[i] == KeyFor(s, layer, experts[i]) && -1 <= keys[i] < s.Keys()
  {
    seq(|experts|, i requires 0 <= i < |experts| => KeyFor(s, layer, experts[i]))
  }

  function ValidKeys(keys: seq<int>): set<int> { set k | k in keys && k >= 0 }

  function Reverse(s: seq<int>): (r: seq<int>)
    ensures |r| == |s|
  {
    if |s| == 0 then [] else [s[|s| - 1]] + Reverse(s[..|s| - 1])
  }

  /** Positioned reads behind `n` loads. */
  function ReadOps(s: Store, n: nat): nat { if s.dtype == GgufQ8 then 3 * n else n }

  /** A resident key of the batch lost its slot: it is gone, or it had to be read again. */
  ghost predicate LosesMember(keys: seq<int>, before: seq<int>, loaded: seq<int>, after: seq<int>) {
    exists k :: k in keys && k in before && (k in loaded || k !in after)
  }

  lemma {:induction false} ReverseMembers(s: seq<int>)
    ensures forall k :: k in Reverse(s) <==> k in s
  {
    if |s| > 0 {
      assert s == s[..|s| - 1] + [s[|s| - 1]];
      ReverseMembers(s[..|s| - 1]);
    }
  }

  /** The losses of a batch are those of its reservation phase. */
  lemma LossesOfPlan(keys: seq<int>, before: seq<int>, loaded: seq<int>, p: Plan)
    requires (forall k | k in loaded :: k in p.taken) && forall k | k in p.taken :: k !in p.order
    ensures LosesMember(keys, before, loaded, Reverse(loaded) + p.order) <==>
      exists k :: k in keys && k in before && k !in p.order
  {
    ReverseMembers(loaded);
    if LosesMember(keys, before, loaded, Reverse(loaded) + p.order) {
      var k :| k in keys && k in before && (k in loaded || k !in Reverse(loaded) + p.order);
      assert k !in p.order;
    }
  }

  class Cache {
    const store: Store
    const slotBytes: nat
    const nSlots: nat
    const slotOf: array<int>
    const keyOf: array<int>
    const usedAt: array<nat>
    const recordOfSlot: array<int>
    const arena: array<Bytes>
    var pinned: array?<bool>
    var clock: nat
    var requests: nat
    var hits: nat
    var misses: nat
    var evictions: nat
    var bytesRead: nat
    var readOps: nat
    var prefetchBatches: nat
    var prefetchReads: nat
    var readFailures: nat
    ghost var order: seq<int>

    ghost function View(): Snap
      reads this`clock, this`order, slotOf, keyOf, usedAt, recordOfSlot, arena
    {
      Snap(slotOf[..], keyOf[..], usedAt[..], recordOfSlot[..], arena[..], clock, order)
    }

    ghost predicate Apart()
      reads this`pinned
    {
      slotOf as object != keyOf && slotOf as object != usedAt && slotOf as object != recordOfSlot &&
      slotOf as object != arena &&
      keyOf as object != usedAt && keyOf as object != recordOfSlot && keyOf as object != arena &&
      usedAt as object != recordOfSlot && usedAt as object != arena && recordOfSlot as object != arena &&
      (pinned != null ==>
        pinned as object != slotOf && pinned as object != keyOf && pinned as object != usedAt &&
        pinned as object != recordOfSlot && pinned as object != arena && pinned.Length == store.Keys())
    }

    /** Coherence while the slots of `work` are reserved. */
    ghost predicate Core(work: seq<Work>)
      reads this, slotOf, keyOf, usedAt, recordOfSlot, arena
    {
      Apart() && keyOf.Length == nSlots && Sound(store, slotBytes, View(), work) && requests == hits + misses
    }

    /** Coherence between calls: no slot is in flight. */
    ghost predicate Valid()
      reads this, slotOf, keyOf, usedAt, recordOfSlot, arena
    {
      Core([])
    }

    function Pins(): set<int>
      reads this`pinned, pinned
    {
      if pinned == null then {} else set k | 0 <= k < pinned.Length && pinned[k]
    }

    constructor (store: Store, slotBytes: nat, nSlots: nat)
      requires Opened(store)
      ensures Valid() && this.store == store && this.slotBytes == slotBytes && this.nSlots == nSlots
      ensures pinned == null && order == [] && requests == hits == misses == evictions == readFailures == 0
      ensures fresh(slotOf) && fresh(keyOf) && fresh(usedAt) && fresh(recordOfSlot) && fresh(arena)
    {
      this.store, this.slotBytes, this.nSlots := store, slotBytes, nSlots;
      slotOf := new int[store.Keys()](_ => -1);
      keyOf := new int[nSlots](_ => EMPTY);
      usedAt := new nat[nSlots](_ => 0);
      recordOfSlot := new int[nSlots](_ => -1);
      arena := new Bytes[nSlots](_ => seq(slotBytes, _ => 0));
      pinned := null;
      clock, requests, hits, misses, evictions, bytesRead, readOps := 0, 0, 0, 0, 0, 0, 0;
      prefetchBatches, prefetchReads, readFailures := 0, 0, 0;
      order := [];
      new;
      hide Sound;
      StartSound(store, slotBytes, nSlots, View());
    }

    static lemma StartSound(st: Store, slotBytes: nat, n: nat, v: Snap)
      requires Opened(st) && |v.slotOf| == st.Keys() && |v.keyOf| == |v.usedAt| == |v.recOf| == |v.arena| == n
      requires (forall k | 0 <= k < |v.slotOf| :: v.slotOf[k] == -1) && v.clock == 0 && v.order == []
      requires forall i | 0 <= i < n :: v.keyOf[i] == EMPTY && v.usedAt[i] == 0 && |v.arena[i]| == slotBytes
      ensures Sound(st, slotBytes, v, [])
    {
      hide Opened;
    }

    /** `kvl_expert_cache_resident`: no I/O, no change. */
    method Resident(layer: int, expert: int) returns (found: bool, slot: int)
      requires Valid()
      ensures found <==> KeyFor(store, layer, expert) in order
      ensures found ==> 0 <= slot < nSlots && keyOf[slot] == KeyFor(store, layer, expert)
    {
      var key := KeyFor(store, layer, expert);
      if key < 0 {
        return false, -1;
      }
      slot := slotOf[key];
      found := 0 <= slot < nSlots && keyOf[slot] == key;
    }

    /** `pick_victim`. */
    method PickVictim(avoid: seq<int>) returns (best: int)
      requires Apart() && usedAt.Length == keyOf.Length && slotOf.Length == store.Keys()
      requires forall i | 0 <= i < keyOf.Length :: -2 <= keyOf[i] < slotOf.Length
      ensures IsVictim(View(), Pins() + Members(avoid), best)
    {
      ghost var keep := Pins() + Members(avoid);
      ghost var v := View();
      best := -1;
      var oldest := 0;
      var i := 0;
      while i < keyOf.Length
        invariant 0 <= i <= keyOf.Length && -1 <= best < i
        invariant forall j | 0 <= j < i :: keyOf[j] != EMPTY
        invariant best == -1 ==> forall j | 0 <= j < i :: !Candidate(v, keep, j)
        invariant best >= 0 ==> Candidate(v, keep, best) && oldest == usedAt[best]
        invariant best >= 0 ==> forall j | 0 <= j < i && Candidate(v, keep, j) :: usedAt[best] <= usedAt[j]
      {
        var key := keyOf[i];
        if key == EMPTY {
          return i;
        }
        if key != INFLIGHT && !(pinned != null && pinned[key]) && key !in avoid && (best < 0 || usedAt[i] < oldest) {
          assert Candidate(v, keep, i);
          oldest := usedAt[i];
          best := i;
        }
        i := i + 1;
      }
    }

    /** Evict the resident of a victim slot, if any, and mark the slot in flight. */
    method ReserveSlot(slot: nat)
      requires Apart() && usedAt.Length == keyOf.Length == recordOfSlot.Length && slot < keyOf.Length &&
        keyOf[slot] < slotOf.Length
      modifies this`evictions, this`clock, this`order, slotOf, keyOf, usedAt, recordOfSlot
      ensures View() == Reserve(old(View()), slot)
      ensures evictions == old(evictions) + if old(keyOf[slot]) >= 0 then 1 else 0
    {
      if keyOf[slot] >= 0 {
        order := Without(order, keyOf[slot]);
        slotOf[keyOf[slot]] := -1;
        evictions := evictions + 1;
      }
      keyOf[slot] := INFLIGHT;
      recordOfSlot[slot] := -1;
      clock := clock + 1;
      usedAt[slot] := clock;
    }

    /** One positioned read into a slot.  It may fail and leave anything behind. */
    method ReadRecord(slot: nat, rec: nat) returns (ok: bool)
      requires slot < arena.Length && rec < |store.records| && (store.dtype == GgufQ8 ==> rec < |store.sources|)
      requires store.records[rec].readBytes <= |arena[slot]|
      modifies arena
      ensures forall i | 0 <= i < arena.Length && i != slot :: arena[i] == old(arena[i])
      ensures |arena[slot]| == |old(arena[slot])|
      ensures ok ==> Loaded(store, rec, arena[slot])
    {
      ok := *;
      if ok {
        LoadIdempotent(store, rec, arena[slot]);
        arena[slot] := LoadInto(store, rec, arena[slot]);
      } else {
        assert |seq(|arena[slot]|, _ => 0 as bv8)| == |arena[slot]|;
        var junk: Bytes :| |junk| == |arena[slot]|;
        arena[slot] := junk;
      }
    }

    lemma Lengths(work: seq<Work>)
      requires Core(work)
      ensures slotOf.Length == store.Keys() &&
        usedAt.Length == recordOfSlot.Length == arena.Length == keyOf.Length == nSlots
      ensures forall i | 0 <= i < keyOf.Length :: -2 <= keyOf[i] < slotOf.Length
    {
    }

    lemma VictimFacts(v: Snap, work: seq<Work>, keep: set<int>, r: int)
      requires Sound(store, slotBytes, v, work) && IsVictim(v, keep, r)
      ensures r >= 0 && v.keyOf[r] == EMPTY ==> |v.order| + |work| < |v.keyOf|
      ensures r == -1 || v.keyOf[r] != EMPTY ==> |v.order| + |work| == |v.keyOf|
      ensures r == -1 ==> forall k | k in v.order :: k in keep
      ensures r >= 0 && v.keyOf[r] != EMPTY ==> v.keyOf[r] >= 0 && LastFree(v.order, keep) == Some(v.keyOf[r])
      ensures r >= 0 ==> -1 <= v.keyOf[r] < |v.slotOf|
    {
      VictimIsLastFree(v, work, keep, r);
    }

    lemma ReserveFacts(v: Snap, work: seq<Work>, slot: nat, key: nat, rec: nat)
      requires Sound(store, slotBytes, v, work) && slot < |v.keyOf| && v.keyOf[slot] >= -1
      requires key < |v.slotOf| && key !in v.order && forall j | 0 <= j < |work| :: work[j].key != key
      ensures v.keyOf[slot] < |v.slotOf| && |v.usedAt| == |v.keyOf| == |v.recOf|
      ensures Sound(store, slotBytes, Reserve(v, slot), work + [Work(slot, key, rec)])
      ensures forall k | k in Reserve(v, slot).order :: LastUse(Reserve(v, slot), k) < Reserve(v, slot).clock
    {
      ReserveSound(store, slotBytes, v, work, slot, key, rec);
    }

    lemma KeyResident(key: int, work: seq<Work>)
      requires Core(work) && 0 <= key < slotOf.Length
      ensures slotOf[key] >= 0 <==> key in order
      ensures slotOf[key] >= 0 ==> slotOf[key] < keyOf.Length && keyOf[slotOf[key]] == key
    {
    }

    /** The hit path of `kvl_expert_cache_get`. */
    method TouchSlot(slot: nat)
      requires Valid() && slot < nSlots && keyOf[slot] >= 0
      modifies this`clock, this`hits, this`requests, this`order, usedAt
      ensures Valid() && View() == Hit(old(View()), slot) && hits == old(hits) + 1 && requests == old(requests) + 1
    {
      hide Sound, Touch;
      Lengths([]);
      HitSound(store, slotBytes, View(), slot);
      requests := requests + 1;
      hits := hits + 1;
      order := Touch(order, keyOf[slot]);
      clock := clock + 1;
      usedAt[slot] := clock;
    }

    /** The victim's slot for one missing key: `pick_victim` and the reservation. */
    method Acquire(key: nat, rec: nat, avoid: seq<int>, ghost work: seq<Work>) returns (slot: int)
      requires Core(work) && key < store.Keys() && key !in order && forall j | 0 <= j < |work| :: work[j].key != key
      modifies this`evictions, this`clock, this`order, slotOf, keyOf, usedAt, recordOfSlot
      ensures -1 <= slot < nSlots
      ensures slot >= 0 ==> Core(work + [Work(slot, key, rec)])
      ensures slot < 0 ==> Core(work) && View() == old(View()) && evictions == old(evictions)
      ensures slot < 0 ==> |order| + |work| == nSlots && forall k | k in order :: k in Pins() || k in avoid
      ensures slot >= 0 && |old(order)| + |work| < nSlots ==> order == old(order) && evictions == old(evictions)
      ensures slot >= 0 && |old(order)| + |work| >= nSlots ==>
        evictions == old(evictions) + 1 &&
        var victim := LastFree(old(order), Pins() + Members(avoid));
        victim.Some? && order == Without(old(order), victim.value)
      ensures slot >= 0 ==> keyOf[slot] == INFLIGHT && arena[..] == old(arena[..]) && usedAt[slot] == clock
      ensures slot >= 0 ==> forall k | k in order :: LastUse(View(), k) < clock
    {
      hide Sound, Without, LastFree, LastUse;
      Lengths(work);
      slot := PickVictim(avoid);
      ghost var v, keep := View(), Pins() + Members(avoid);
      VictimFacts(v, work, keep, slot);
      if slot < 0 {
        return;
      }
      ReserveFacts(v, work, slot, key, rec);
      ReserveSlot(slot);
    }

    lemma PublishFacts(v: Snap, work: seq<Work>, tick: nat)
      requires Sound(store, slotBytes, v, work) && |work| > 0 && tick >= v.clock
      requires forall k | k in v.order :: LastUse(v, k) < tick
      requires Fetchable(store, slotBytes, work[0].key) == work[0].rec
      requires work[0].slot < |v.arena| && Loaded(store, work[0].rec, v.arena[work[0].slot])
      ensures work[0].slot < |v.usedAt| && work[0].slot < |v.keyOf| && work[0].slot < |v.recOf| &&
        work[0].key < |v.slotOf|
      ensures Sound(store, slotBytes, Publish(v, work[0], tick), work[1..])
    {
      PublishSound(store, slotBytes, v, work, tick);
    }

    lemma DropFacts(v: Snap, work: seq<Work>)
      requires Sound(store, slotBytes, v, work) && |work| > 0
      ensures work[0].slot < |v.keyOf| && work[0].slot < |v.recOf|
      ensures Sound(store, slotBytes, Drop(v, work[0].slot), work[1..])
    {
      DropSound(store, slotBytes, v, work);
    }

    /** Changing the contents of a slot that is in flight keeps the rest coherent. */
    lemma ScribbleFacts(v: Snap, work: seq<Work>, arena': seq<Bytes>, j: nat)
      requires Sound(store, slotBytes, v, work) && j < |work| && |arena'| == |v.arena|
      requires work[j].slot < |v.arena| && |arena'[work[j].slot]| == |v.arena[work[j].slot]|
      requires forall i | 0 <= i < |v.arena| && i != work[j].slot :: arena'[i] == v.arena[i]
      ensures Sound(store, slotBytes, v.(arena := arena'), work)
    {
      var w := v.(arena := arena');
      assert v.keyOf[work[j].slot] == INFLIGHT;
      hide Loaded, Falling, LastUse;
      assert Filled(store, w);
    }

    lemma StoreOpen(work: seq<Work>)
      requires Core(work)
      ensures Opened(store) && |store.recordOf| == store.Keys()
    {
    }

    /** A miss can be served: the key has a record that fits, and a slot is empty or holds an unpinned key. */
    ghost predicate Possible(key: int, residents: seq<int>)
      reads this`pinned, pinned
    {
      Fetchable(store, slotBytes, key) >= 0 && Kept(residents, nSlots, Pins()).Some?
    }

    /** `slot` holds the bytes a direct load of the record of `key` would deliver. */
    ghost predicate Holds(slot: int, key: int)
      reads keyOf, recordOfSlot, arena
    {
      0 <= key < |store.recordOf| && 0 <= slot < nSlots && slot < keyOf.Length && slot < recordOfSlot.Length &&
      slot < arena.Length &&
      keyOf[slot] == key && recordOfSlot[slot] == store.recordOf[key] && Loaded(store, recordOfSlot[slot], arena[slot])
    }

    /** The size of the record of a key. */
    ghost function WidthOfKey(key: int): nat {
      if 0 <= Fetchable(store, slotBytes, key) < |store.records|
        then store.records[Fetchable(store, slotBytes, key)].readBytes else 0
    }

    ghost function WidthOfKeys(keys: seq<int>): nat {
      if |keys| == 0 then 0 else WidthOfKeys(keys[..|keys| - 1]) + WidthOfKey(keys[|keys| - 1])
    }

    lemma WidthSnoc(keys: seq<int>, key: int)
      ensures WidthOfKeys(keys + [key]) == WidthOfKeys(keys) + WidthOfKey(key)
    {
      assert (keys + [key])[..|keys|] == keys;
    }

    /** A complete record becomes resident, as the most recently used. */
    method Enter(w: Work, ghost work: seq<Work>)
      requires Core(work) && |work| > 0 && w == work[0] && w.slot < nSlots &&
        Fetchable(store, slotBytes, w.key) == w.rec
      requires usedAt[w.slot] == clock && Loaded(store, w.rec, arena[w.slot]) &&
        forall k | k in order :: LastUse(View(), k) < clock
      modifies this`bytesRead, this`order, slotOf, keyOf, recordOfSlot
      ensures Core(work[1..]) && order == [w.key as int] + old(order) && Holds(w.slot, w.key)
      ensures bytesRead == old(bytesRead) + WidthOfKey(w.key)
    {
      hide Sound, Loaded, LastUse, Opened;
      Lengths(work);
      StoreOpen(work);
      ghost var v := View();
      PublishFacts(v, work, clock);
      bytesRead := bytesRead + store.records[w.rec].readBytes;
      recordOfSlot[w.slot] := w.rec;
      keyOf[w.slot] := w.key;
      slotOf[w.key] := w.slot;
      order := [w.key as int] + order;
      assert usedAt[..][w.slot := clock] == usedAt[..];
      assert View() == Publish(v, work[0], clock);
    }

    /** A failed read leaves an empty slot. */
    method Abandon(w: Work, ghost work: seq<Work>)
      requires Core(work) && |work| > 0 && w == work[0] && w.slot < nSlots
      modifies this`readFailures, keyOf, recordOfSlot
      ensures Core(work[1..]) && readFailures == old(readFailures) + 1
      ensures View() == Drop(old(View()), w.slot)
    {
      hide Sound;
      Lengths(work);
      DropFacts(View(), work);
      readFailures := readFailures + 1;
      keyOf[w.slot] := EMPTY;
      recordOfSlot[w.slot] := -1;
    }

    lemma SlotWidth(work: seq<Work>, slot: nat)
      requires Core(work) && slot < arena.Length
      ensures |arena[slot]| == slotBytes
    {
    }

    /** One read into the slot of `work[j]`, in whatever order the reads are issued. */
    method ReadOne(w: Work, ghost work: seq<Work>, ghost j: nat) returns (ok: bool)
      requires Core(work) && j < |work| && w == work[j] && w.slot < nSlots &&
        Fetchable(store, slotBytes, w.key) == w.rec
      modifies arena
      ensures Core(work) && View() == old(View()).(arena := arena[..])
      ensures forall i | 0 <= i < arena.Length && i != w.slot :: arena[i] == old(arena[i])
      ensures w.slot < arena.Length && (ok ==> Loaded(store, w.rec, arena[w.slot]))
    {
      hide Sound, Loaded, Opened;
      Lengths(work);
      StoreOpen(work);
      SlotWidth(work, w.slot);
      ghost var v := View();
      ok := ReadRecord(w.slot, w.rec);
      ScribbleFacts(v, work, arena[..], j);
      assert View() == v.(arena := arena[..]);
    }

    /** `load_into_slot`, and the publication or the clean-up that follows it. */
    method LoadAndPublish(w: Work) returns (ok: bool)
      requires Core([w]) && w.slot < nSlots && Fetchable(store, slotBytes, w.key) == w.rec && usedAt[w.slot] == clock
      requires forall k | k in order :: LastUse(View(), k) < clock
      modifies this`readOps, this`bytesRead, this`readFailures, this`order, slotOf, keyOf, recordOfSlot, arena
      ensures Valid()
      ensures ok ==> readFailures == old(readFailures) && order == [w.key as int] + old(order) && Holds(w.slot, w.key)
      ensures !ok ==> readFailures == old(readFailures) + 1 && order == old(order)
      ensures readOps == old(readOps) + ReadOps(store, 1) &&
        bytesRead == old(bytesRead) + if ok then WidthOfKey(w.key) else 0
    {
      hide Sound, Loaded, LastUse, Opened;
      ghost var v := View();
      ok := ReadOne(w, [w], 0);
      readOps := readOps + ReadOps(store, 1);
      assert [w][1..] == [];
      if !ok {
        Abandon(w, [w]);
        return;
      }
      StampsKept(v, View());
      Enter(w, [w]);
    }

    lemma StampsKept(v: Snap, w: Snap)
      requires w == v.(arena := w.arena) && forall k | k in v.order :: LastUse(v, k) < v.clock
      ensures forall k | k in w.order :: LastUse(w, k) < w.clock
    {
    }

    /** The miss path of `kvl_expert_cache_get`: find the record, find a slot, read, publish. */
    method Miss(key: nat) returns (ok: bool, slot: int)
      requires Valid() && key < store.Keys() && key !in order
      modifies this`clock, this`requests, this`misses, this`evictions, this`readOps, this`bytesRead, this`readFailures,
               this`order, slotOf, keyOf, usedAt, recordOfSlot, arena
      ensures Valid() && requests == old(requests) + 1 && misses == old(misses) + 1
      ensures !Possible(key, old(order)) ==>
        !ok && View() == old(View()) && evictions == old(evictions) && readFailures == old(readFailures) &&
        readOps == old(readOps) && bytesRead == old(bytesRead)
      ensures Possible(key, old(order)) ==>
        order == (if ok then [key as int] else []) + Kept(old(order), nSlots, Pins()).value &&
        evictions == old(evictions) + (if |old(order)| < nSlots then 0 else 1) &&
        readFailures == old(readFailures) + (if ok then 0 else 1) &&
        readOps == old(readOps) + ReadOps(store, 1) && bytesRead == old(bytesRead) + if ok then WidthOfKey(key) else 0
      ensures ok ==> Holds(slot, key)
    {
      hide Sound, Loaded, LastUse, Without, LastFree, Opened;
      Lengths([]);
      StoreOpen([]);
      RecFacts(key);
      requests := requests + 1;
      misses := misses + 1;
      ok, slot := false, -1;
      var rec := store.recordOf[key];
      if rec < 0 || store.records[rec].readBytes > slotBytes {
        return;
      }
      slot := Acquire(key, rec, [], []);
      assert Pins() + Members([]) == Pins();
      if slot < 0 {
        return;
      }
      assert [] + [Work(slot, key, rec)] == [Work(slot, key, rec)];
      ok := LoadAndPublish(Work(slot, key, rec));
    }

    /** `kvl_expert_cache_get`. */
    method Get(layer: int, expert: int) returns (ok: bool, slot: int)
      requires Valid()
      modifies this`clock, this`requests, this`hits, this`misses, this`evictions, this`readOps, this`bytesRead,
        this`readFailures,
               this`order, slotOf, keyOf, usedAt, recordOfSlot, arena
      ensures Valid()
      // ids outside the store: nothing happens
      ensures KeyFor(store, layer, expert) < 0 ==>
        !ok && View() == old(View()) && requests == old(requests) && misses == old(misses)
      ensures KeyFor(store, layer, expert) >= 0 ==> requests == old(requests) + 1
      // a hit refreshes the recency of the key
      ensures KeyFor(store, layer, expert) in old(order) ==>
        ok && hits == old(hits) + 1 && order == Touch(old(order), KeyFor(store, layer, expert)) &&
        evictions == old(evictions) && readFailures == old(readFailures) && readOps == old(readOps) &&
        bytesRead == old(bytesRead)
      ensures KeyFor(store, layer, expert) !in old(order) ==> hits == old(hits)
      // a miss that has no record, or no slot to use, changes nothing but the counters
      ensures KeyFor(store, layer, expert) !in old(order) && !Possible(KeyFor(store, layer, expert), old(order)) ==>
        !ok && View() == old(View()) && evictions == old(evictions) && readFailures == old(readFailures) &&
        readOps == old(readOps) && bytesRead == old(bytesRead)
      // any other miss evicts only when no slot is empty, and then only the least recently used unpinned key
      ensures KeyFor(store, layer, expert) !in old(order) && Possible(KeyFor(store, layer, expert), old(order)) ==>
        order == (if ok then [KeyFor(store, layer, expert)] else []) + Kept(old(order), nSlots, Pins()).value &&
        evictions == old(evictions) + (if |old(order)| < nSlots then 0 else 1) &&
        readFailures == old(readFailures) + (if ok then 0 else 1) && readOps == old(readOps) + ReadOps(store, 1) &&
        bytesRead == old(bytesRead) + if ok then WidthOfKey(KeyFor(store, layer, expert)) else 0
      ensures ok ==> Holds(slot, KeyFor(store, layer, expert))
    {
      hide Sound, Loaded, LastUse, Touch, Without, LastFree, Opened, Kept, Pins;
      var key := KeyFor(store, layer, expert);
      KeysResident([]);
      if key < 0 {
        return false, -1;
      }
      Lengths([]);
      KeyResident(key, []);
      slot := slotOf[key];
      if 0 <= slot < nSlots && keyOf[slot] == key {
        TouchSlot(slot);
        SlotFacts(slot);
        return true, slot;
      }
      ok, slot := Miss(key);
    }

    lemma KeysResident(work: seq<Work>)
      requires Core(work)
      ensures forall k | k in order :: 0 <= k < store.Keys()
    {
    }

    lemma RecFacts(key: nat)
      requires Opened(store) && key < store.Keys()
      ensures |store.recordOf| == store.Keys() && store.recordOf[key] < |store.records|
    {
    }

    lemma SlotFacts(slot: nat)
      requires Valid() && slot < nSlots && keyOf[slot] >= 0
      ensures Holds(slot, keyOf[slot])
    {
    }

    // ---------------------------------------------------------------- batches

    /** Every reserved slot waits for the record of its key. */
    ghost predicate Takes(work: seq<Work>) {
      forall j | 0 <= j < |work| :: work[j].slot < nSlots && Fetchable(store, slotBytes, work[j].key) == work[j].rec
    }

    /** The keys a batch protects from eviction: none unless pins are in use. */
    ghost function Keeps(keys: seq<int>): set<int>
      reads this`pinned, pinned
    {
      if pinned == null then {} else Pins() + ValidKeys(keys)
    }

    method AvoidList(layer: int, experts: seq<int>) returns (avoid: seq<int>)
      ensures pinned == null ==> avoid == []
      ensures Pins() + Members(avoid) == Keeps(KeysFor(store, layer, experts))
    {
      avoid := [];
      if pinned == null {
        return;
      }
      ghost var keys := KeysFor(store, layer, experts);
      for i := 0 to |experts|
        invariant forall k :: k in avoid <==> k >= 0 && k in keys[..i]
      {
        var key := KeyFor(store, layer, experts[i]);
        assert keys[..i + 1] == keys[..i] + [key];
        if key >= 0 && key !in avoid {
          avoid := avoid + [key];
        }
      }
      assert keys[..|experts|] == keys;
    }

    /** Phase 1, one id. */
    method ReserveNext(key: int, avoid: seq<int>, work: seq<Work>) returns (stop: bool, more: seq<Work>)
      requires Core(work) && Takes(work) && -1 <= key < store.Keys()
      modifies this`evictions, this`clock, this`order, slotOf, keyOf, usedAt, recordOfSlot
      ensures Core(more) && Takes(more) && (stop ==> more == work && order == old(order))
      ensures Step(store, slotBytes, nSlots, Pins() + Members(avoid), Plan(old(order), WorkKeys(work)), key) ==
        if stop then None else Some(Plan(order, WorkKeys(more)))
      ensures evictions == old(evictions) + |old(order)| - |order|
    {
      hide Sound, LastUse, Without, LastFree, Opened, Pins;
      stop, more := false, work;
      Lengths(work);
      StoreOpen(work);
      KeysResident(work);
      if key < 0 {
        return;
      }
      KeyResident(key, work);
      if slotOf[key] >= 0 {
        return;
      }
      if exists j | 0 <= j < |work| :: work[j].key == key {
        ghost var j :| 0 <= j < |work| && work[j].key == key;
        assert WorkKeys(work)[j] == key;
        return;
      }
      var rec := store.recordOf[key];
      RecFacts(key);
      if rec < 0 || store.records[rec].readBytes > slotBytes {
        return;
      }
      var slot := Acquire(key, rec, avoid, work);
      if slot < 0 {
        stop := true;
        return;
      }
      if |old(order)| + |work| >= nSlots {
        WithoutMembersLen(old(order), LastFree(old(order), Pins() + Members(avoid)).value);
      }
      more := work + [Work(slot, key, rec)];
      assert WorkKeys(more) == WorkKeys(work) + [key];
    }

    /** Phase 1: distinct slots, one id after the other. */
    method ReserveBatch(layer: int, experts: seq<int>, avoid: seq<int>, ghost keep: set<int>) returns (work: seq<Work>)
      requires Valid() && keep == Pins() + Members(avoid)
      modifies this`evictions, this`clock, this`order, slotOf, keyOf, usedAt, recordOfSlot
      ensures Core(work) && Takes(work) && evictions == old(evictions) + |old(order)| - |order|
      ensures Plan(order, WorkKeys(work)) ==
        Reserving(store, slotBytes, nSlots, keep, KeysFor(store, layer, experts), Plan(old(order), []))
    {
      hide Sound, LastUse, Step;
      ghost var keys := KeysFor(store, layer, experts);
      ghost var target := Reserving(store, slotBytes, nSlots, keep, keys, Plan(order, []));
      work := [];
      assert keys[0..] == keys && WorkKeys(work) == [];
      for i := 0 to |experts|
        invariant Core(work) && Takes(work) && Pins() + Members(avoid) == keep
        invariant evictions == old(evictions) + |old(order)| - |order|
        invariant Reserving(store, slotBytes, nSlots, keep, keys[i..], Plan(order, WorkKeys(work))) == target
      {
        assert keys[i..][0] == keys[i] == KeyFor(store, layer, experts[i]) && keys[i..][1..] == keys[i + 1..];
        var stop;
        stop, work := ReserveNext(KeyFor(store, layer, experts[i]), avoid, work);
        if stop {
          return;
        }
      }
    }

    ghost predicate Read(work: seq<Work>, got: set<int>)
      reads arena
    {
      forall j | 0 <= j < |work| && work[j].slot in got ::
        work[j].slot < arena.Length && Loaded(store, work[j].rec, arena[work[j].slot])
    }

    lemma StartRead(work: seq<Work>)
      ensures Read(work, {})
    {
    }

    lemma WorkSlotsApart(work: seq<Work>)
      requires Core(work)
      ensures forall i, j | 0 <= i < |work| && 0 <= j < |work| && i != j :: work[i].slot != work[j].slot
    {
    }

    /** Phase 2, one read. */
    method ReadNext(work: seq<Work>, j: nat, got: set<int>) returns (more: set<int>)
      requires Core(work) && Takes(work) && Read(work, got) && j < |work| && work[j].slot !in got
      modifies arena
      ensures Core(work) && Read(work, more) && View() == old(View()).(arena := arena[..])
      ensures more == got || more == got + {work[j].slot}
    {
      hide Sound, Loaded;
      WorkSlotsApart(work);
      var ok := ReadOne(work[j], work, j);
      more := if ok then got + {work[j].slot} else got;
    }

    /** Phase 2: the reads are independent, finish in any order, and may fail one by one. */
    method ReadBatch(work: seq<Work>) returns (got: set<int>)
      requires Core(work) && Takes(work)
      modifies arena
      ensures Core(work) && Read(work, got) && View() == old(View()).(arena := arena[..])
    {
      hide Sound, Loaded, Read, Takes;
      got := {};
      StartRead(work);
      var todo := Upto(|work|);
      while todo != {}
        invariant todo <= Upto(|work|)
        invariant Core(work) && Read(work, got) && View() == old(View()).(arena := arena[..])
        invariant forall j | j in todo :: work[j].slot !in got
      {
        var j :| j in todo;
        todo := todo - {j};
        WorkSlotsApart(work);
        got := ReadNext(work, j, got);
      }
    }

    lemma RotateFacts(v: Snap, work: seq<Work>, j: nat)
      requires Sound(store, slotBytes, v, work) && j < |work|
      ensures Sound(store, slotBytes, v, [work[j]] + Removed(work, j))
    {
      hide Inverse, InFlight, Filled, Ordered, Shape, Opened, Removed;
      RotateInFlight(v, work, j);
    }

    /** Stamping a slot in flight as the newest. */
    lemma StampFacts(v: Snap, work: seq<Work>, slot: nat)
      requires Sound(store, slotBytes, v, work) && slot < |v.keyOf| && v.keyOf[slot] == INFLIGHT
      ensures |v.usedAt| == |v.keyOf|
      ensures var w := v.(clock := v.clock + 1, usedAt := v.usedAt[slot := v.clock + 1]);
              Sound(store, slotBytes, w, work) && forall k | k in w.order :: LastUse(w, k) < w.clock
    {
      var w := v.(clock := v.clock + 1, usedAt := v.usedAt[slot := v.clock + 1]);
      forall k | k in v.order
        ensures LastUse(v, k) == LastUse(w, k) < w.clock
      {
      }
      hide Loaded;
      hide Falling, LastUse;
    }

    lemma WorkInFlight(work: seq<Work>)
      requires Core(work)
      ensures forall j | 0 <= j < |work| :: work[j].slot < keyOf.Length && keyOf[work[j].slot] == INFLIGHT
    {
    }

    /** Phase 3, one record. */
    method Settle(w: Work, read: bool, ghost work: seq<Work>)
      requires Core(work) && Takes(work) && |work| > 0 && w == work[0] && w.slot < arena.Length
      requires read ==> Loaded(store, w.rec, arena[w.slot])
      modifies this`clock, this`bytesRead, this`readOps, this`readFailures, this`prefetchReads, this`order, slotOf,
        keyOf, usedAt, recordOfSlot
      ensures Core(work[1..])
      ensures read ==> order == [w.key as int] + old(order) && readFailures == old(readFailures)
      ensures !read ==> order == old(order) && readFailures == old(readFailures) + 1
      ensures prefetchReads == old(prefetchReads) + if read then 1 else 0
      ensures readOps == old(readOps) + ReadOps(store, 1) &&
        bytesRead == old(bytesRead) + if read then WidthOfKey(w.key) else 0
    {
      hide Sound, Loaded, LastUse;
      Lengths(work);
      WorkInFlight(work);
      readOps := readOps + ReadOps(store, 1);
      if !read {
        Abandon(w, work);
        return;
      }
      StampFacts(View(), work, w.slot);
      clock := clock + 1;
      usedAt[w.slot] := clock;
      Enter(w, work);
      prefetchReads := prefetchReads + 1;
    }

    function OffsetOf(w: Work): nat {
      if w.rec < |store.records| then store.records[w.rec].fileOffset else 0
    }

    /** The next record in file order; ties in any order, as an unstable sort leaves them. */
    method NextByOffset(work: seq<Work>) returns (j: nat)
      requires |work| > 0
      ensures j < |work| && forall i | 0 <= i < |work| :: OffsetOf(work[j]) <= OffsetOf(work[i])
    {
      j := 0;
      for i := 1 to |work|
        invariant j < |work| && forall k | 0 <= k < i :: OffsetOf(work[j]) <= OffsetOf(work[k])
      {
        var tie := *;
        if OffsetOf(work[i]) < OffsetOf(work[j]) || (OffsetOf(work[i]) == OffsetOf(work[j]) && tie) {
          j := i;
        }
      }
    }

    ghost function OffsetOfKey(key: int): nat {
      if 0 <= Fetchable(store, slotBytes, key) < |store.records|
        then store.records[Fetchable(store, slotBytes, key)].fileOffset else 0
    }

    ghost predicate Ascending(loaded: seq<int>) {
      forall i, j | 0 <= i < j < |loaded| :: OffsetOfKey(loaded[i]) <= OffsetOfKey(loaded[j])
    }

    /** Progress of phase 3: `loaded` is published, in file order, `work` is still to come. */
    ghost predicate Filed(loaded: seq<int>, work: seq<Work>, batch: seq<Work>) {
      (forall k | k in loaded :: k in WorkKeys(batch)) && (forall w | w in work :: w in batch) && Ascending(loaded) &&
      forall k, w | k in loaded && w in work :: OffsetOfKey(k) <= OffsetOf(w)
    }

    lemma FiledNext(loaded: seq<int>, work: seq<Work>, batch: seq<Work>, j: nat)
      requires Filed(loaded, work, batch) && Takes(work) && j < |work|
      requires forall i | 0 <= i < |work| :: OffsetOf(work[j]) <= OffsetOf(work[i])
      ensures Filed(loaded, Removed(work, j), batch)
      ensures Filed(loaded + [work[j].key as int], Removed(work, j), batch)
    {
      var w := work[j];
      assert w in work && OffsetOfKey(w.key) == OffsetOf(w);
      var i :| 0 <= i < |batch| && batch[i] == w;
      assert WorkKeys(batch)[i] == w.key;
      hide Fetchable, OffsetOf, OffsetOfKey, Removed, WorkKeys;
    }

    /** The settled part of a batch: a key was published exactly when its read was complete; what is left is not
        published. */
    ghost predicate Accounted(loaded: seq<int>, work: seq<Work>, batch: seq<Work>, got: set<int>) {
      (forall w | w in batch && w !in work :: w.key in loaded <==> w.slot in got) &&
      (forall w | w in work :: w in batch && w.key !in loaded) &&
      |loaded| + |work| <= |batch| &&
      (|loaded| + |work| == |batch| <==> forall w | w in batch && w !in work :: w.slot in got)
    }

    lemma KeysApart(work: seq<Work>)
      requires Core(work)
      ensures forall v, w | v in work && w in work && v.key == w.key :: v == w
    {
    }

    lemma RemovedMembers(work: seq<Work>, j: nat)
      requires j < |work| && forall i, k | 0 <= i < k < |work| :: work[i] != work[k]
      ensures forall v :: v in Removed(work, j) <==> v in work && v != work[j]
    {
      var rest := Removed(work, j);
      forall v | v in work && v != work[j]
        ensures v in rest
      {
        var i :| 0 <= i < |work| && work[i] == v;
        assert rest[if i < j then i else i - 1] == v;
      }
      forall i | 0 <= i < |rest|
        ensures rest[i] in work && rest[i] != work[j]
      {
        assert rest[i] == work[if i < j then i else i + 1];
      }
    }

    lemma AccountedNext(loaded: seq<int>, work: seq<Work>, batch: seq<Work>, got: set<int>, j: nat)
      requires Accounted(loaded, work, batch, got) && j < |work|
      requires forall v, w | v in batch && w in batch && v.key == w.key :: v == w
      requires forall i, k | 0 <= i < k < |work| :: work[i] != work[k]
      ensures Accounted(if work[j].slot in got then loaded + [work[j].key as int] else loaded, Removed(work, j), batch,
                        got)
    {
      RemovedMembers(work, j);
      hide Removed;
      assert work[j] in work;
    }

    lemma WorkApart(work: seq<Work>)
      requires Core(work)
      ensures forall i, k | 0 <= i < k < |work| :: work[i] != work[k]
    {
    }

    /** Phase 3, the next record in file order. */
    method SettleNext(work: seq<Work>, got: set<int>) returns (j: nat)
      requires Core(work) && Takes(work) && Read(work, got) && |work| > 0
      modifies this`clock, this`bytesRead, this`readOps, this`readFailures, this`prefetchReads, this`order, slotOf,
        keyOf, usedAt, recordOfSlot
      ensures j < |work| && forall i | 0 <= i < |work| :: OffsetOf(work[j]) <= OffsetOf(work[i])
      ensures Core(Removed(work, j)) && Takes(Removed(work, j)) && Read(Removed(work, j), got)
      ensures order == (if work[j].slot in got then [work[j].key as int] else []) + old(order)
      ensures readFailures == old(readFailures) + (if work[j].slot in got then 0 else 1)
      ensures prefetchReads == old(prefetchReads) + (if work[j].slot in got then 1 else 0)
      ensures readOps == old(readOps) + ReadOps(store, 1)
      ensures bytesRead == old(bytesRead) + (if work[j].slot in got then WidthOfKey(work[j].key) else 0)
    {
      hide Sound, Loaded, Fetchable, OffsetOf;
      j := NextByOffset(work);
      var w := work[j];
      Lengths(work);
      RotateFacts(View(), work, j);
      ghost var turned := [w] + Removed(work, j);
      assert turned[1..] == Removed(work, j);
      assert forall i | 0 <= i < |Removed(work, j)| :: Removed(work, j)[i] == work[if i < j then i else i + 1];
      Settle(w, w.slot in got, turned);
    }

    /** Progress of phase 3: what is published, in file order, and what is left. */
    ghost predicate Progress(loaded: seq<int>, work: seq<Work>, batch: seq<Work>, got: set<int>) {
      Filed(loaded, work, batch) && Accounted(loaded, work, batch, got) &&
      (forall v, w | v in batch && w in batch && v.key == w.key :: v == w) &&
      forall i, k | 0 <= i < k < |work| :: work[i] != work[k]
    }

    lemma ProgressNext(loaded: seq<int>, work: seq<Work>, batch: seq<Work>, got: set<int>, j: nat)
      requires Progress(loaded, work, batch, got) && Takes(work) && j < |work|
      requires forall i | 0 <= i < |work| :: OffsetOf(work[j]) <= OffsetOf(work[i])
      ensures var more := if work[j].slot in got then loaded + [work[j].key as int] else loaded;
              Progress(more, Removed(work, j), batch, got)
    {
      FiledNext(loaded, work, batch, j);
      AccountedNext(loaded, work, batch, got, j);
      hide Filed, Accounted;
    }

    lemma ReverseSnoc(s: seq<int>, k: int, rest: seq<int>)
      ensures Reverse(s + [k]) + rest == [k] + (Reverse(s) + rest)
    {
      assert (s + [k])[..|s|] == s;
    }

    /** Phase 3: the complete records become resident in file order. */
    method PublishBatch(batch: seq<Work>, got: set<int>) returns (ok: nat, ghost loaded: seq<int>)
      requires Core(batch) && Takes(batch) && Read(batch, got)
      modifies this`clock, this`bytesRead, this`readOps, this`readFailures, this`prefetchReads, this`order, slotOf,
        keyOf, usedAt, recordOfSlot
      ensures Valid() && order == Reverse(loaded) + old(order) && |loaded| == ok <= |batch|
      ensures (forall k | k in loaded :: k in WorkKeys(batch)) && Ascending(loaded)
      ensures forall w | w in batch :: w.key in loaded <==> w.slot in got
      ensures ok == |batch| <==> forall w | w in batch :: w.slot in got
      ensures readFailures == old(readFailures) + |batch| - ok && prefetchReads == old(prefetchReads) + ok
      ensures readOps == old(readOps) + ReadOps(store, |batch|) && bytesRead == old(bytesRead) + WidthOfKeys(loaded)
    {
      hide Sound, Loaded, Fetchable, Takes, Read, Ascending, OffsetOf, WorkKeys, Removed, Progress, WidthOfKeys;
      var work := batch;
      ok, loaded := 0, [];
      StartProgress(batch, got);
      hide Reverse;
      while work != []
        invariant Core(work) && Takes(work) && Read(work, got) && Progress(loaded, work, batch, got)
        invariant order == Reverse(loaded) + old(order) && |loaded| == ok && ok + |work| <= |batch|
        invariant readFailures == old(readFailures) + |batch| - |work| - ok && prefetchReads == old(prefetchReads) + ok
        invariant readOps == old(readOps) + ReadOps(store, |batch| - |work|) &&
          bytesRead == old(bytesRead) + WidthOfKeys(loaded)
        decreases |work|
      {
        var j := SettleNext(work, got);
        ProgressNext(loaded, work, batch, got, j);
        if work[j].slot in got {
          WidthSnoc(loaded, work[j].key);
          ReverseSnoc(loaded, work[j].key, old(order));
          ok, loaded := ok + 1, loaded + [work[j].key as int];
        }
        work := Removed(work, j);
      }
      AllAccounted(loaded, batch, got);
    }

    lemma StartProgress(batch: seq<Work>, got: set<int>)
      requires Core(batch)
      ensures Progress([], batch, batch, got) && Reverse([]) == [] && WidthOfKeys([]) == 0
    {
      KeysApart(batch);
      WorkApart(batch);
    }

    lemma AllAccounted(loaded: seq<int>, batch: seq<Work>, got: set<int>)
      requires Progress(loaded, [], batch, got)
      ensures (forall k | k in loaded :: k in WorkKeys(batch)) && Ascending(loaded)
      ensures forall w | w in batch :: w.key in loaded <==> w.slot in got
      ensures |loaded| == |batch| <==> forall w | w in batch :: w.slot in got
    {
    }

    /** The keys of a batch whose reads were not complete. */
    ghost function FailedKeys(work: seq<Work>, got: set<int>): set<int> {
      set w | w in work && w.slot !in got :: w.key as int
    }

    /** A read key is loaded, a key of a failed read is not. */
    lemma LoadedOrFailed(work: seq<Work>, got: set<int>, loaded: seq<int>)
      requires forall w | w in work :: w.key in loaded <==> w.slot in got
      requires forall v, w | v in work && w in work && v.key == w.key :: v == w
      requires |loaded| == |work| <==> forall w | w in work :: w.slot in got
      ensures forall k | k in WorkKeys(work) :: k in loaded <==> k !in FailedKeys(work, got)
      ensures forall k | k in FailedKeys(work, got) :: k in WorkKeys(work)
      ensures FailedKeys(work, got) == {} <==> |loaded| == |work|
    {
      var failed := FailedKeys(work, got);
      forall k | k in WorkKeys(work)
        ensures k in loaded <==> k !in failed
      {
        var j :| 0 <= j < |work| && WorkKeys(work)[j] == k;
        assert work[j] in work;
      }
      forall k | k in failed
        ensures k in WorkKeys(work)
      {
        var w :| w in work && w.slot !in got && w.key == k;
        var j :| 0 <= j < |work| && work[j] == w;
        assert WorkKeys(work)[j] == k;
      }
      forall w | w in work && w.slot !in got
        ensures w.key in failed
      {
      }
    }

    /** Phases 2 and 3 over the reservations. */
    method LoadReserved(work: seq<Work>) returns (ok: nat, ghost loaded: seq<int>, ghost failed: set<int>)
      requires Core(work) && Takes(work)
      modifies this`clock, this`bytesRead, this`readOps, this`readFailures, this`prefetchReads, this`order,
               slotOf, keyOf, usedAt, recordOfSlot, arena
      ensures Valid() && order == Reverse(loaded) + old(order) && |loaded| == ok <= |work| && Ascending(loaded)
      ensures forall k | k in loaded :: k in WorkKeys(work)
      ensures forall k | k in WorkKeys(work) :: k in loaded <==> k !in failed
      ensures (forall k | k in failed :: k in WorkKeys(work)) && (failed == {} <==> ok == |work|)
      ensures readFailures == old(readFailures) + |work| - ok && prefetchReads == old(prefetchReads) + ok
      ensures readOps == old(readOps) + ReadOps(store, |work|) && bytesRead == old(bytesRead) + WidthOfKeys(loaded)
    {
      hide Sound, Loaded, Takes, Read, Ascending, WorkKeys, FailedKeys;
      var got := ReadBatch(work);
      KeysApart(work);
      ok, loaded := PublishBatch(work, got);
      failed := FailedKeys(work, got);
      LoadedOrFailed(work, got, loaded);
    }

    /** What phase 1 of a batch will do from here. */
    ghost function Planned(layer: int, experts: seq<int>): Plan
      reads this`order, this`pinned, pinned
    {
      var keys := KeysFor(store, layer, experts);
      Reserving(store, slotBytes, nSlots, Keeps(keys), keys, Plan(order, []))
    }

    /** `kvl_expert_cache_getmany`.  `loaded` lists the keys that became resident, in the order they did; `failed` are
        the keys whose reads were not complete. */
    method GetMany(layer: int, experts: seq<int>) returns (ok: nat, ghost loaded: seq<int>, ghost failed: set<int>)
      requires Valid()
      modifies this`clock, this`evictions, this`readOps, this`bytesRead, this`readFailures, this`prefetchBatches,
        this`prefetchReads,
               this`order, slotOf, keyOf, usedAt, recordOfSlot, arena
      ensures Valid() && |loaded| == ok && (|experts| == 0 ==> ok == 0 && View() == old(View()))
      ensures order == Reverse(loaded) + old(Planned(layer, experts)).order
      ensures (forall k | k in loaded :: k in old(Planned(layer, experts)).taken) && Ascending(loaded)
      ensures forall k | k in old(Planned(layer, experts)).taken :: k in loaded <==> k !in failed
      ensures (forall k | k in failed :: k in old(Planned(layer, experts)).taken) &&
        (failed == {} <==> readFailures == old(readFailures))
      ensures evictions == old(evictions) + |old(order)| - |old(Planned(layer, experts)).order|
      ensures ok <= |old(Planned(layer, experts)).taken| &&
        readFailures == old(readFailures) + |old(Planned(layer, experts)).taken| - ok
      ensures prefetchReads == old(prefetchReads) + ok &&
        prefetchBatches == old(prefetchBatches) + if |experts| == 0 then 0 else 1
      ensures readOps == old(readOps) + ReadOps(store, |old(Planned(layer, experts)).taken|)
      ensures bytesRead == old(bytesRead) + WidthOfKeys(loaded)
      // without pins a resident member of the batch loses its slot exactly when the batch is too large for its position
      ensures old(pinned) == null ==>
        (LosesMember(KeysFor(store, layer, experts), old(order), loaded, order) <==>
         Crowded(store, slotBytes, nSlots, KeysFor(store, layer, experts), old(order)))
    {
      hide Sound, Loaded, Takes, Read, Ascending, Reserving, WorkKeys, Pins, Keeps, Crowded, LosesMember;
      ghost var keys, before, plan := KeysFor(store, layer, experts), order, Planned(layer, experts);
      PlanLosses(layer, experts);
      ok, loaded, failed := 0, [], {};
      NothingPlanned(layer);
      if |experts| == 0 {
        assert experts == [];
        LossesOfPlan(keys, before, loaded, plan);
        return;
      }
      var avoid := AvoidList(layer, experts);
      ghost var keep := Keeps(KeysFor(store, layer, experts));
      prefetchBatches := prefetchBatches + 1;
      var work := ReserveBatch(layer, experts, avoid, keep);
      assert Plan(order, WorkKeys(work)) == old(Planned(layer, experts));
      WorkKeysLength(work);
      if |work| == 0 {
        LossesOfPlan(keys, before, loaded, plan);
        return;
      }
      ok, loaded, failed := LoadReserved(work);
      LossesOfPlan(keys, before, loaded, plan);
    }

    /** What phase 1 does to residents of the batch. */
    lemma PlanLosses(layer: int, experts: seq<int>)
      requires Valid()
      ensures var keys, p := KeysFor(store, layer, experts), Planned(layer, experts);
              (forall k | k in p.taken :: k !in p.order) &&
              (pinned == null ==>
                ((exists k :: k in keys && k in order && k !in p.order) <==>
                  Crowded(store, slotBytes, nSlots, keys, order)))
    {
      var keys := KeysFor(store, layer, experts);
      OrderFits();
      hide Sound, Reserving, Crowded;
      ReservingKeeps(store, slotBytes, nSlots, Keeps(keys), keys, Plan(order, []));
      EvictsOwnMemberIff(store, slotBytes, nSlots, keys, order);
    }

    lemma OrderFits()
      requires Valid()
      ensures Distinct(order) && |order| <= nSlots
    {
      Occupancy(View(), []);
    }

    lemma WorkKeysLength(work: seq<Work>)
      ensures |WorkKeys(work)| == |work|
    {
    }

    lemma NothingPlanned(layer: int)
      ensures Planned(layer, []) == Plan(order, []) && Ascending([])
    {
    }

    // ---------------------------------------------------------------- pins

    /** `kvl_expert_cache_pin_layer`: the ids are checked first, so a bad list leaves the old pins in place. */
    method PinLayer(layer: int, experts: seq<int>) returns (ok: bool)
      requires Valid()
      modifies this`pinned, pinned
      ensures Valid() && View() == old(View())
      ensures ok <==>
        0 <= layer < store.nLayers && |experts| <= store.nExperts &&
        forall i | 0 <= i < |experts| :: KeyFor(store, layer, experts[i]) >= 0
      ensures !ok ==> pinned == old(pinned) && Pins() == old(Pins())
      ensures pinned == old(pinned) || fresh(pinned)
      ensures ok ==>
        pinned != null && Pins() == (old(Pins()) - LayerKeys(store, layer)) + Members(KeysFor(store, layer, experts))
    {
      hide Sound;
      if layer < 0 || layer >= store.nLayers || |experts| > store.nExperts {
        return false;
      }
      for i := 0 to |experts|
        invariant forall j | 0 <= j < i :: KeyFor(store, layer, experts[j]) >= 0
      {
        if KeyFor(store, layer, experts[i]) < 0 {
          return false;
        }
      }
      if pinned == null {
        pinned := new bool[store.Keys()](_ => false);
        assert Pins() == old(Pins());
      }
      ClearLayer(layer);
      SetPins(layer, experts);
      ok := true;
    }

    /** The `memset` over one layer's flags. */
    method ClearLayer(layer: nat)
      requires Apart() && pinned != null && layer < store.nLayers
      modifies pinned
      ensures Pins() == old(Pins()) - LayerKeys(store, layer)
    {
      LayerInRange(store, layer);
      ghost var first := pinned;
      for e := 0 to store.nExperts
        invariant layer * store.nExperts + store.nExperts <= pinned.Length
        invariant forall k | 0 <= k < pinned.Length ::
          pinned[k] == (old(pinned[k]) && !(layer * store.nExperts <= k < layer * store.nExperts + e))
      {
        pinned[layer * store.nExperts + e] := false;
      }
    }

    method SetPins(layer: nat, experts: seq<int>)
      requires Apart() && pinned != null && forall i | 0 <= i < |experts| :: KeyFor(store, layer, experts[i]) >= 0
      modifies pinned
      ensures Pins() == old(Pins()) + Members(KeysFor(store, layer, experts))
    {
      ghost var keys := KeysFor(store, layer, experts);
      for i := 0 to |experts|
        invariant forall k | 0 <= k < pinned.Length :: pinned[k] == (old(pinned[k]) || k in keys[..i])
      {
        pinned[KeyFor(store, layer, experts[i])] := true;
        assert keys[..i + 1] == keys[..i] + [keys[i]];
      }
      assert keys[..|experts|] == keys;
      assert forall k | k in keys :: 0 <= k < pinned.Length;
    }

    /** What a resident slot of a plain store shows: the record, byte for byte. */
    lemma ResidentShows(key: int)
      requires Valid() && key in order && store.dtype != GgufQ8
      ensures 0 <= key < slotOf.Length && Holds(slotOf[key], key)
      ensures var r := store.records[store.recordOf[key]];
              r.readBytes <= |arena[slotOf[key]]| &&
              arena[slotOf[key]][..r.readBytes] == FileBytes(store.file, r.fileOffset, r.readBytes)
    {
      ResidentHolds(key);
      hide Sound;
      var r, bytes := store.records[store.recordOf[key]], arena[slotOf[key]];
      assert bytes == FileBytes(store.file, r.fileOffset, r.readBytes) + bytes[r.readBytes..];
    }

    /** What a resident slot of an indexed GGUF store shows: the gate, up and down slices of the expert. */
    lemma ResidentSlices(key: int, gate: Part, up: Part, down: Part)
      requires Valid() && key in order && store.dtype == GgufQ8 && GoodPart(gate) && GoodPart(up) && GoodPart(down)
      requires 0 <= key < |store.recordOf| && 0 <= store.recordOf[key] < |store.records| == |store.sources|
      requires var r, rec := store.records[store.recordOf[key]], store.recordOf[key];
               (r, store.sources[rec]) == Layout(r.layer, r.expert, gate, up, down)
      ensures 0 <= key < slotOf.Length && Holds(slotOf[key], key)
      ensures Shows(store.file, store.records[store.recordOf[key]], arena[slotOf[key]], gate, up, down)
    {
      ResidentHolds(key);
      hide Sound, Layout, GoodPart, Shows, LoadInto;
      var r := store.records[store.recordOf[key]];
      ScatterRoundTrip(r.layer, r.expert, gate, up, down, store, store.recordOf[key], arena[slotOf[key]]);
    }

    /** A resident key is served from memory with exactly what a direct load of its record delivers. */
    lemma ResidentHolds(key: int)
      requires Valid() && key in order
      ensures 0 <= key < slotOf.Length && Holds(slotOf[key], key)
    {
    }
  }

  function LayerKeys(s: Store, layer: nat): set<int> {
    set k | k in Upto(s.Keys()) && layer * s.nExperts <= k < layer * s.nExperts + s.nExperts
  }

  lemma LayerInRange(s: Store, layer: nat)
    requires layer < s.nLayers
    ensures layer * s.nExperts + s.nExperts <= s.Keys()
  {
    BlockEnds(layer, s.nLayers, s.nExperts);
  }

  function MaxRead(records: seq<Record>): (m: nat)
    ensures forall i | 0 <= i < |records| :: records[i].readBytes <= m
    ensures m == 0 || exists i :: 0 <= i < |records| && records[i].readBytes == m
  {
    if |records| == 0 then 0
    else
      var last, rest := records[|records| - 1].readBytes, MaxRead(records[..|records| - 1]);
      if last > rest then last else rest
  }

  method MaxReadLoop(records: seq<Record>) returns (maxRead: nat)
    ensures maxRead == MaxRead(records)
  {
    maxRead := 0;
    for i := 0 to |records|
      invariant maxRead == MaxRead(records[..i])
    {
      assert records[..i + 1][..i] == records[..i];
      if records[i].readBytes > maxRead {
        maxRead := records[i].readBytes;
      }
    }
    assert records[..|records|] == records;
  }

  lemma RecordsKnown(s: Store)
    requires Opened(s)
    ensures |s.recordOf| == s.Keys() && forall k | 0 <= k < |s.recordOf| :: s.recordOf[k] < |s.records|
  {
  }

  /** `kvl_expert_cache_init`: as many slots as the budget holds, each wide enough for every record. */
  method Init(store: Store, budget: nat) returns (r: Option<Cache>)
    requires Opened(store)
    ensures r.None? <==> MaxRead(store.records) == 0 || budget < AlignUp(MaxRead(store.records))
    ensures r.Some? ==>
      fresh(r.value) && r.value.Valid() && r.value.store == store && r.value.order == [] && r.value.pinned == null
    ensures r.Some? ==>
      r.value.slotBytes % ALIGN == 0 && r.value.nSlots >= 1 &&
      r.value.nSlots * r.value.slotBytes <= budget < (r.value.nSlots + 1) * r.value.slotBytes
    ensures r.Some? ==>
      forall k | 0 <= k < store.Keys() && store.recordOf[k] >= 0 ::
        Fetchable(store, r.value.slotBytes, k) == store.recordOf[k]
  {
    hide Sound, MaxRead, Opened, AlignUp;
    Aligned(MaxRead(store.records));
    if budget == 0 {
      return None;
    }
    var maxRead := MaxReadLoop(store.records);
    RecordsKnown(store);
    if maxRead == 0 {
      return None;
    }
    var slotBytes := AlignUp(maxRead);
    var nSlots := budget / slotBytes;
    Quotient(budget, slotBytes);
    if nSlots < 1 {
      return None;
    }
    var c := new Cache(store, slotBytes, nSlots);
    return Some(c);
  }

  lemma Quotient(budget: nat, slot: nat)
    requires slot > 0
    ensures budget / slot * slot <= budget < (budget / slot + 1) * slot
    ensures budget / slot >= 0
    ensures budget / slot < 1 <==> budget < slot
  {
    var q := budget / slot;
    assert q * slot + budget % slot == budget;
    assert (q + 1) * slot == q * slot + slot;
    assert q < 0 ==> (q + 1) * slot <= 0;
    assert q >= 1 ==> q * slot >= slot;
    assert q == 0 ==> q * slot == 0;
  }
}
