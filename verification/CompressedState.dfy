/** The compressed attention history of one layer: `len` live rows at the front of fixed buffers.  Rows past
    `len` may hold anything; truncation only moves `len`, so the rows it drops stay in the buffers. */
module CompressedState {
  import opened Wrappers

  class State<A, B> {
    const capacity: nat
    const rank: nat
    const ropeDim: nat
    var len: nat
    const latent: array<A>
    const rope: array<B>

    ghost predicate Valid()
      reads this
    {
      latent.Length == capacity > 0 && rope.Length == capacity && latent as object != rope && len <= capacity &&
      rank > 0 && ropeDim > 0 && ropeDim % 2 == 0
    }

    ghost function Buffers(): set<object>
    {
      {this, latent, rope}
    }

    ghost function Latents(): seq<A>
      requires Valid()
      reads this, latent
    {
      latent[..len]
    }

    ghost function Ropes(): seq<B>
      requires Valid()
      reads this, rope
    {
      rope[..len]
    }

    constructor (capacity: nat, rank: nat, ropeDim: nat, zeroLatent: A, zeroRope: B)
      requires capacity > 0 && rank > 0 && ropeDim > 0 && ropeDim % 2 == 0
      ensures Valid() && fresh(Buffers())
      ensures this.capacity == capacity && this.rank == rank && this.ropeDim == ropeDim && len == 0
    {
      this.capacity, this.rank, this.ropeDim, this.len := capacity, rank, ropeDim, 0;
      latent := new A[capacity](_ => zeroLatent);
      rope := new B[capacity](_ => zeroRope);
    }

    /** `kvl_mla_compressed_state_init`: refuses an empty buffer, an empty row and an odd rotary width. */
    static method Init(capacity: int, rank: int, ropeDim: int, zeroLatent: A, zeroRope: B)
        returns (r: Option<State<A, B>>)
      ensures r.Some? <==> capacity > 0 && rank > 0 && ropeDim > 0 && ropeDim % 2 == 0
      ensures r.Some? ==> r.value.Valid() && fresh(r.value.Buffers()) && r.value.len == 0
      ensures r.Some? ==> r.value.capacity == capacity && r.value.rank == rank && r.value.ropeDim == ropeDim
    {
      if capacity <= 0 || rank <= 0 || ropeDim <= 0 || ropeDim % 2 == 1 {
        return None;
      }
      var state := new State<A, B>(capacity, rank, ropeDim, zeroLatent, zeroRope);
      return Some(state);
    }

    /** `kvl_mla_compressed_state_truncate`. */
    method Truncate(newLen: int) returns (ok: bool)
      requires Valid()
      modifies this`len
      ensures Valid()
      ensures ok <==> 0 <= newLen <= old(len)
      ensures ok ==> len == newLen && Latents() == old(Latents())[..newLen] && Ropes() == old(Ropes())[..newLen]
      ensures !ok ==> len == old(len)
    {
      if newLen < 0 || newLen > len {
        return false;
      }
      len := newLen;
      return true;
    }

    /** One layer of `clone_states_lab`: a new state of the given capacity, the check that the live rows fit, and their
        `memcpy`; the rows past `len` are not copied. */
    method Clone(capacity: int, zeroLatent: A, zeroRope: B) returns (r: Option<State<A, B>>)
      requires Valid()
      ensures r.Some? <==> 0 < capacity && len <= capacity
      ensures r.Some? ==> r.value.Valid() && fresh(r.value.Buffers()) && r.value.capacity == capacity
      ensures r.Some? ==> r.value.rank == rank && r.value.ropeDim == ropeDim && r.value.len == len
      ensures r.Some? ==> r.value.Latents() == Latents() && r.value.Ropes() == Ropes()
    {
      r := Init(capacity, rank, ropeDim, zeroLatent, zeroRope);
      if r.None? || len > capacity {
        return None;
      }
      var copy := r.value;
      for t := 0 to len
        invariant copy.Valid() && fresh(copy.Buffers()) && copy.len == 0
        invariant copy.latent[..t] == latent[..t] && copy.rope[..t] == rope[..t]
      {
        copy.latent[t] := latent[t];
        copy.rope[t] := rope[t];
      }
      copy.len := len;
    }
  }
}
