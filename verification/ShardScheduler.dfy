/** The download, pack and delete schedule of the full conversion: what is packed when, and what may be deleted. */
module ShardScheduler {
  import opened Lists

  datatype Item = Layer(l: nat) | Global(g: nat)

  datatype Event = Download(shard: nat) | Pack(item: Item) | Delete(shard: nat)

  /** Which shards each layer and each global tensor needs, and whether sources are kept. */
  datatype Job = Job(layers: seq<set<nat>>, globals: seq<nat>, keep: bool)
  {
    predicate Has(i: Item) {
      match i
      case Layer(l) => l < |layers|
      case Global(g) => g < |globals|
    }

    function Needs(i: Item): set<nat>
      requires Has(i)
    {
      match i
      case Layer(l) => layers[l]
      case Global(g) => {globals[g]}
    }
  }

  function Resident(log: seq<Event>): set<nat> {
    if |log| == 0 then {}
    else
      var before := Resident(log[..|log| - 1]);
      match log[|log| - 1]
      case Download(s) => before + {s}
      case Pack(_) => before
      case Delete(s) => before - {s}
  }

  function Packed(log: seq<Event>): set<Item> {
    if |log| == 0 then {}
    else
      var before := Packed(log[..|log| - 1]);
      if log[|log| - 1].Pack? then before + {log[|log| - 1].item} else before
  }

  function Fetched(log: seq<Event>): set<nat> {
    if |log| == 0 then {}
    else
      var before := Fetched(log[..|log| - 1]);
      if log[|log| - 1].Download? then before + {log[|log| - 1].shard} else before
  }

  /** Something not packed yet needs the shard. */
  ghost predicate Wanted(job: Job, packed: set<Item>, s: nat) {
    exists i :: job.Has(i) && i !in packed && s in job.Needs(i)
  }

  /** What may happen after `before`: a shard is downloaded once, and nothing useless is resident then; an item is
      packed once, with all its shards present; only a shard nobody needs any more is deleted. */
  ghost predicate Allowed(job: Job, before: seq<Event>, e: Event) {
    match e
    case Download(s) =>
      s !in Fetched(before) &&
      (!job.keep ==> forall r | r in Resident(before) :: Wanted(job, Packed(before), r))
    case Pack(i) => job.Has(i) && i !in Packed(before) && job.Needs(i) <= Resident(before)
    case Delete(s) => !job.keep && s in Resident(before) && !Wanted(job, Packed(before), s)
  }

  ghost predicate GoodLog(job: Job, log: seq<Event>) {
    forall k | 0 <= k < |log| :: Allowed(job, log[..k], log[k])
  }

  lemma LogSnoc(job: Job, log: seq<Event>, e: Event)
    requires GoodLog(job, log) && Allowed(job, log, e)
    ensures GoodLog(job, log + [e])
    ensures Resident(log + [e]) ==
      if e.Download? then Resident(log) + {e.shard}
      else if e.Delete? then Resident(log) - {e.shard}
      else Resident(log)
    ensures Packed(log + [e]) == if e.Pack? then Packed(log) + {e.item} else Packed(log)
    ensures Fetched(log + [e]) == if e.Download? then Fetched(log) + {e.shard} else Fetched(log)
  {
    var more := log + [e];
    assert more[..|log|] == log;
    forall k | 0 <= k < |more|
      ensures Allowed(job, more[..k], more[k])
    {
      assert k < |log| ==> more[..k] == log[..k];
    }
  }

  /** The shard list: every shard something needs, each once. */
  ghost predicate ShardList(job: Job, order: seq<nat>) {
    Distinct(order) && (forall s | s in order :: Wanted(job, {}, s)) &&
    forall i | job.Has(i) :: forall s | s in job.Needs(i) :: s in order
  }

  class Packer {
    const job: Job
    var log: seq<Event>
    var loaded: set<nat>
    var doneLayers: set<nat>
    var doneGlobals: set<nat>

    /** The sets mirror the log. */
    ghost predicate Valid()
      reads this
    {
      GoodLog(job, log) && loaded == Resident(log) && loaded <= Fetched(log) &&
      (forall l :: Layer(l) in Packed(log) <==> l in doneLayers) &&
      (forall g :: Global(g) in Packed(log) <==> g in doneGlobals) &&
      (forall i | i in Packed(log) :: job.Has(i)) &&
      // what an unpacked item needs and was downloaded is still here
      (forall i | job.Has(i) && i !in Packed(log) :: job.Needs(i) * Fetched(log) <= loaded)
    }

    constructor (job: Job)
      ensures Valid() && log == [] && this.job == job
    {
      this.job := job;
      log, loaded, doneLayers, doneGlobals := [], {}, {}, {};
    }

    method Fetch(s: nat)
      requires Valid() && s !in Fetched(log) && (!job.keep ==> forall r | r in loaded :: Wanted(job, Packed(log), r))
      modifies this
      ensures Valid() && Fetched(log) == old(Fetched(log)) + {s} && Packed(log) == old(Packed(log)) &&
        log == old(log) + [Download(s)]
    {
      LogSnoc(job, log, Download(s));
      log, loaded := log + [Download(s)], loaded + {s};
    }

    method PackItem(i: Item)
      requires Valid() && job.Has(i) && i !in Packed(log) && job.Needs(i) <= loaded
      modifies this
      ensures Valid() && Fetched(log) == old(Fetched(log)) && Packed(log) == old(Packed(log)) + {i} &&
        loaded == old(loaded)
      ensures doneLayers == old(doneLayers) + (if i.Layer? then {i.l} else {}) &&
        doneGlobals == old(doneGlobals) + (if i.Global? then {i.g} else {})
    {
      LogSnoc(job, log, Pack(i));
      log := log + [Pack(i)];
      match i
      case Layer(l) => doneLayers := doneLayers + {l};
      case Global(g) => doneGlobals := doneGlobals + {g};
    }

    method Drop(s: nat)
      requires Valid() && !job.keep && s in loaded && !Wanted(job, Packed(log), s)
      modifies this
      ensures Valid() && Fetched(log) == old(Fetched(log)) && Packed(log) == old(Packed(log)) &&
        loaded == old(loaded) - {s}
      ensures doneLayers == old(doneLayers) && doneGlobals == old(doneGlobals)
    {
      LogSnoc(job, log, Delete(s));
      log, loaded := log + [Delete(s)], loaded - {s};
    }

    /** The globals whose shard has arrived. */
    method PackGlobals()
      requires Valid()
      modifies this
      ensures Valid() && Fetched(log) == old(Fetched(log)) && loaded == old(loaded) && doneLayers == old(doneLayers)
      ensures forall g: nat | g < |job.globals| && job.globals[g] in loaded :: g in doneGlobals
    {
      for g := 0 to |job.globals|
        invariant Valid() && Fetched(log) == old(Fetched(log)) && loaded == old(loaded) && doneLayers == old(doneLayers)
        invariant forall k: nat | k < g && job.globals[k] in loaded :: k in doneGlobals
      {
        if g !in doneGlobals && job.globals[g] in loaded {
          PackItem(Global(g));
        }
      }
    }

    /** One round over the layers. */
    method PackRound() returns (progress: bool)
      requires Valid()
      modifies this
      ensures Valid() && Fetched(log) == old(Fetched(log)) && loaded == old(loaded) && doneGlobals == old(doneGlobals)
      ensures old(doneLayers) <= doneLayers &&
        forall l: nat | l < |job.layers| && job.layers[l] <= loaded :: l in doneLayers
      ensures progress ==> exists k: nat :: k < |job.layers| && k in doneLayers && k !in old(doneLayers)
    {
      hide GoodLog, Resident, Packed, Fetched;
      progress := false;
      for l := 0 to |job.layers|
        invariant Valid() && Fetched(log) == old(Fetched(log)) && loaded == old(loaded) &&
          doneGlobals == old(doneGlobals)
        invariant old(doneLayers) <= doneLayers && forall k: nat | k < l && job.layers[k] <= loaded :: k in doneLayers
        invariant progress ==> exists k: nat :: k < l && k in doneLayers && k !in old(doneLayers)
      {
        if l !in doneLayers && job.layers[l] <= loaded {
          PackItem(Layer(l));
          progress := true;
        }
      }
    }

    /** The progress loop over the layers: it ends because each round with progress packs another layer. */
    method PackLayers()
      requires Valid()
      modifies this
      ensures Valid() && Fetched(log) == old(Fetched(log)) && loaded == old(loaded) && doneGlobals == old(doneGlobals)
      ensures forall l: nat | l < |job.layers| && job.layers[l] <= loaded :: l in doneLayers
    {
      hide GoodLog, Resident, Packed, Fetched;
      var progress := true;
      while progress
        invariant Valid() && Fetched(log) == old(Fetched(log)) && loaded == old(loaded) &&
          doneGlobals == old(doneGlobals)
        invariant !progress ==> forall l: nat | l < |job.layers| && job.layers[l] <= loaded :: l in doneLayers
        decreases |Upto(|job.layers|) - Ints(doneLayers)|, progress
      {
        ghost var before := doneLayers;
        progress := PackRound();
        if progress {
          ghost var k: nat :| k < |job.layers| && k in doneLayers && k !in before;
          Fewer(|job.layers|, before, doneLayers, k);
        } else {
          NoMore(|job.layers|, before, doneLayers);
        }
      }
    }

    /** Whatever has all its shards fetched is packed. */
    ghost predicate UpToDate()
      reads this
    {
      forall i | job.Has(i) && job.Needs(i) <= Fetched(log) :: i in Packed(log)
    }

    lemma Settled()
      requires Valid()
      requires forall g: nat | g < |job.globals| && job.globals[g] in loaded :: g in doneGlobals
      requires forall l: nat | l < |job.layers| && job.layers[l] <= loaded :: l in doneLayers
      ensures UpToDate()
    {
      forall i | job.Has(i) && job.Needs(i) <= loaded
        ensures i in Packed(log)
      {
        match i
        case Layer(l) => assert l in doneLayers;
        case Global(g) => assert job.globals[g] in job.Needs(i);
      }
      forall i | job.Has(i) && job.Needs(i) <= Fetched(log)
        ensures i in Packed(log)
      {
        var need := job.Needs(i);
        assert i !in Packed(log) ==> need <= loaded;
      }
    }

    /** The shards some unpacked layer or global still needs. */
    method StillNeeded() returns (still: set<nat>)
      requires Valid()
      ensures forall s :: s in still <==> Wanted(job, Packed(log), s)
    {
      still := {};
      for l := 0 to |job.layers|
        invariant forall s :: s in still <==> exists k: nat :: k < l && k !in doneLayers && s in job.layers[k]
      {
        if l !in doneLayers {
          still := still + job.layers[l];
        }
      }
      ghost var byLayers := still;
      for g := 0 to |job.globals|
        invariant forall s :: s in still <==>
          s in byLayers || exists k: nat :: k < g && k !in doneGlobals && s == job.globals[k]
      {
        if g !in doneGlobals {
          still := still + {job.globals[g]};
        }
      }
      forall s
        ensures s in still <==> Wanted(job, Packed(log), s)
      {
        if s in byLayers {
          var k: nat :| k < |job.layers| && k !in doneLayers && s in job.layers[k];
          assert job.Has(Layer(k)) && s in job.Needs(Layer(k));
        } else if s in still {
          var k: nat :| k < |job.globals| && k !in doneGlobals && s == job.globals[k];
          assert job.Has(Global(k)) && s in job.Needs(Global(k));
        }
        if Wanted(job, Packed(log), s) {
          var i :| job.Has(i) && i !in Packed(log) && s in job.Needs(i);
          match i
          case Layer(l) => assert l !in doneLayers && s in job.layers[l];
          case Global(g) => assert g !in doneGlobals && s == job.globals[g];
        }
      }
    }

    /** Deletes what nobody needs any more. */
    method DeleteConsumed()
      requires Valid() && !job.keep
      modifies this
      ensures Valid() && Fetched(log) == old(Fetched(log)) && Packed(log) == old(Packed(log)) && loaded <= old(loaded)
      ensures doneLayers == old(doneLayers) && doneGlobals == old(doneGlobals)
      ensures forall r | r in loaded :: Wanted(job, Packed(log), r)
    {
      var still := StillNeeded();
      var todo := loaded;
      while todo != {}
        invariant Valid() && Fetched(log) == old(Fetched(log)) && Packed(log) == old(Packed(log)) &&
          loaded <= old(loaded)
        invariant doneLayers == old(doneLayers) && doneGlobals == old(doneGlobals) && todo <= loaded
        invariant forall s :: s in still <==> Wanted(job, Packed(log), s)
        invariant forall r | r in loaded && r !in todo :: r in still
        decreases todo
      {
        var s :| s in todo;
        todo := todo - {s};
        if s !in still {
          Drop(s);
        }
      }
    }
  }

  lemma EmptyLogFacts()
    ensures Resident([]) == {} && Packed([]) == {} && Fetched([]) == {}
  {
  }

  ghost predicate AllPacked(job: Job, log: seq<Event>) { forall i | job.Has(i) :: i in Packed(log) }

  function Packs(log: seq<Event>, i: Item): nat {
    if |log| == 0 then 0 else Packs(log[..|log| - 1], i) + if log[|log| - 1] == Pack(i) then 1 else 0
  }

  /** In a log that follows the rules and packs everything, each layer and each global is packed exactly once. */
  lemma {:induction false} PackedOnce(job: Job, log: seq<Event>, i: Item)
    requires GoodLog(job, log)
    ensures Packs(log, i) == if i in Packed(log) then 1 else 0
    decreases |log|
  {
    if |log| > 0 {
      var init := log[..|log| - 1];
      forall k | 0 <= k < |init|
        ensures Allowed(job, init[..k], init[k])
      {
        assert init[..k] == log[..k];
      }
      PackedOnce(job, init, i);
      assert Allowed(job, init, log[|log| - 1]);
    }
  }

  /** A shard some later pack step needs is not deleted before it. */
  lemma NeededStays(job: Job, log: seq<Event>, d: nat, k: nat, s: nat, i: Item)
    requires GoodLog(job, log) && d < k < |log| && log[d] == Delete(s) && log[k] == Pack(i)
    ensures job.Has(i) && s !in job.Needs(i)
  {
    assert Allowed(job, log[..d], log[d]) && Allowed(job, log[..k], log[k]);
    PackedGrows(log, d, k);
  }

  lemma {:induction false} PackedGrows(log: seq<Event>, a: nat, b: nat)
    requires a <= b <= |log|
    ensures Packed(log[..a]) <= Packed(log[..b])
    decreases b
  {
    if a < b {
      PackedGrows(log, a, b - 1);
      assert log[..b][..b - 1] == log[..b - 1];
    }
  }

  /** What is resident was downloaded and has not been deleted since. */
  lemma {:induction false} ResidentSince(log: seq<Event>, s: nat) returns (d: nat)
    requires s in Resident(log)
    ensures d < |log| && log[d] == Download(s) && forall j | d < j < |log| :: log[j] != Delete(s)
    decreases |log|
  {
    var last := |log| - 1;
    if log[last] == Download(s) {
      d := last;
    } else {
      d := ResidentSince(log[..last], s);
      assert forall j | 0 <= j < last :: log[..last][j] == log[j];
    }
  }

  /** When a layer is packed, each of its shards has been downloaded and is still there. */
  lemma PackedFromShards(job: Job, log: seq<Event>, k: nat, l: nat, s: nat) returns (d: nat)
    requires GoodLog(job, log) && k < |log| && log[k] == Pack(Layer(l)) && (l < |job.layers| ==> s in job.layers[l])
    ensures l < |job.layers| && d < k && log[d] == Download(s) && forall j | d < j < k :: log[j] != Delete(s)
  {
    assert Allowed(job, log[..k], log[k]);
    d := ResidentSince(log[..k], s);
    assert forall j | 0 <= j < k :: log[..k][j] == log[j];
  }

  function Nats(s: seq<nat>): set<nat> { set x | x in s }

  /** The main loop.  Whatever the shards of the layers are, the log follows the rules and everything gets packed, so
      the final check for an incomplete conversion never fires; without `keep` no source shard is left. */
  method Convert(job: Job, order: seq<nat>) returns (p: Packer)
    requires ShardList(job, order) && |job.globals| > 0
    ensures p.Valid() && p.job == job && GoodLog(job, p.log) && AllPacked(job, p.log) && Fetched(p.log) == Nats(order)
    ensures !job.keep ==> p.loaded == {}
  {
    hide GoodLog, Resident, Packed, Fetched;
    p := new Packer(job);
    EmptyLogFacts();
    for si := 0 to |order|
      invariant fresh(p) && p.Valid() && p.job == job && Fetched(p.log) == Nats(order[..si])
      invariant !job.keep ==> forall r | r in p.loaded :: Wanted(job, Packed(p.log), r)
      invariant si > 0 ==> p.UpToDate()
    {
      p.Fetch(order[si]);
      p.PackGlobals();
      p.PackLayers();
      p.Settled();
      if !job.keep {
        p.DeleteConsumed();
      }
    }
    assert order[..|order|] == order;
    AllDone(job, order, p);
  }

  lemma AllDone(job: Job, order: seq<nat>, p: Packer)
    requires ShardList(job, order) && |job.globals| > 0 && p.Valid() && p.job == job && Fetched(p.log) == Nats(order)
    requires |order| > 0 ==> p.UpToDate()
    requires !job.keep ==> forall r | r in p.loaded :: Wanted(job, Packed(p.log), r)
    ensures AllPacked(job, p.log) && (!job.keep ==> p.loaded == {})
  {
    hide GoodLog, Resident, Packed, Fetched;
    assert job.Has(Global(0)) && job.globals[0] in job.Needs(Global(0));
    forall i | job.Has(i)
      ensures i in Packed(p.log)
    {
      assert job.Needs(i) <= Nats(order);
    }
  }

  function Ints(s: set<nat>): set<int> { set x: nat | x in s :: x as int }

  lemma NoMore(n: nat, before: set<nat>, after: set<nat>)
    requires before <= after
    ensures |Upto(n) - Ints(after)| <= |Upto(n) - Ints(before)|
  {
    var a, b := Upto(n) - Ints(after), Upto(n) - Ints(before);
    assert a <= b && b == a + (b - a);
  }

  lemma Fewer(n: nat, before: set<nat>, after: set<nat>, k: nat)
    requires before <= after && k < n && k in after && k !in before
    ensures |Upto(n) - Ints(after)| < |Upto(n) - Ints(before)|
  {
    var a, b := Upto(n) - Ints(after), Upto(n) - Ints(before);
    assert (k as int) in b && (k as int) !in a && a <= b;
    assert b == a + (b - a);
  }
}
