/**
 Nonce ranges handed to worker threads (`src/crypto/common/Nonce.cpp`, `Nonce.h`): two
 64-bit counters, one for the user's jobs and one for donated ones, a pause flag and a
 sequence number for each backend.
 */
module Nonces {
  import opened Arithmetic
  import opened Jobs
  import opened Options

  const TWO32: int := 0x1_0000_0000
  const TWO64: int := 0x1_0000_0000_0000_0000

  type Word64 = x: int | 0 <= x < TWO64

  datatype NonceState = NonceState(paused: bool, sequences: seq<Word64>, counters: seq<Word64>) {
    predicate Valid() {
      |sequences| == 3 && |counters| == 2
    }
  }

  const FRESH := NonceState(true, [1, 1, 1], [0, 0])

  function Paused(n: NonceState, paused: bool): NonceState {
    n.(paused := paused)
  }

  function WithReset(n: NonceState, index: Index): (r: NonceState)
    requires n.Valid()
    ensures r.Valid()
  {
    n.(counters := n.counters[index := 0])
  }

  function Touched(n: NonceState): (r: NonceState)
    requires n.Valid()
    ensures r.Valid()
  {
    n.(sequences := [Add(n.sequences[0], 1), Add(n.sequences[1], 1), Add(n.sequences[2], 1)])
  }

  function Stopped(n: NonceState): NonceState {
    n.(paused := false, sequences := [0, 0, 0])
  }

  /** Addition of unsigned 64-bit numbers. */
  function Add(x: Word64, y: Word64): Word64 {
    (x + y) % TWO64
  }

  /** One `fetch_add`; the range it takes starts at the old counter. */
  function Taken(n: NonceState, index: Index, count: Word64): (r: NonceState)
    requires n.Valid()
    ensures r.Valid()
  {
    n.(counters := n.counters[index := Add(n.counters[index], count)])
  }

  /**
   Where the range taken from a counter at `c` starts: ranges are passed over while they
   cross a 32-bit boundary; `p` is one past the mask.
   */
  function FirstFit(c: nat, reserve: nat, p: nat): (r: Option<nat>)
    requires 0 < reserve
    decreases if c > p then 0 else p - c
  {
    if c + reserve > p then None
    else if c + reserve == p || c % TWO32 + reserve <= TWO32 then Some(c)
    else FirstFit(c + reserve, reserve, p)
  }

  class Nonce {
    var paused: bool
    var sequences: seq<Word64>
    var counters: seq<Word64>

    predicate Valid()
      reads this
    {
      |sequences| == 3 && |counters| == 2
    }

    function State(): (n: NonceState)
      reads this
    {
      NonceState(paused, sequences, counters)
    }

    constructor ()
      ensures Valid() && State() == FRESH
    {
      paused, sequences, counters := true, [1, 1, 1], [0, 0];
    }

    method Pause(paused: bool)
      modifies `paused
      ensures this.paused == paused
    {
      this.paused := paused;
    }

    method Reset(index: Index)
      requires Valid()
      modifies `counters
      ensures counters == old(counters)[index := 0]
    {
      counters := counters[index := 0];
    }

    method Touch()
      requires Valid()
      modifies `sequences
      ensures Valid() && State() == Touched(old(State()))
    {
      for i := 0 to 3
        invariant |sequences| == 3
        invariant forall k :: 0 <= k < 3 ==>
                    sequences[k] == if k < i then Add(old(sequences[k]), 1) else old(sequences[k])
      {
        sequences := sequences[i := Add(sequences[i], 1)];
      }
      assert sequences == Touched(old(State())).sequences;
    }

    method Stop()
      requires Valid()
      modifies `paused, `sequences
      ensures Valid() && State() == Stopped(old(State()))
    {
      Pause(false);
      for i := 0 to 3
        invariant !paused && |sequences| == 3 && forall k :: 0 <= k < i ==> sequences[k] == 0
      {
        sequences := sequences[i := 0];
      }
      assert sequences == [0, 0, 0];
    }

    method FetchAdd(index: Index, count: Word64) returns (before: Word64)
      requires Valid()
      modifies `counters
      ensures Valid() && before == old(counters[index])
      ensures State() == Taken(old(State()), index, count)
    {
      before := counters[index];
      counters := counters[index := Add(before, count)];
    }

    /** The loop of `next`: takes ranges until one is granted or the mask is used up. */
    method Claim(index: Index, reserve: Word64, mask: Word64) returns (ok: bool, counter: Word64)
      requires Valid() && 0 < reserve < TWO32 && mask < TWO64 / 2
      modifies `paused, `counters
      ensures Valid() && counters[1 - index] == old(counters[1 - index])
      ensures ok ==> (
        && old(counters[index]) <= counter && counters[index] == counter + reserve <= mask + 1
        && (counter % TWO32 + reserve <= TWO32 || counter + reserve == mask + 1)
        && (paused <==> old(paused) || counter + reserve == mask + 1))
      ensures !ok ==> counter + reserve > mask + 1
      ensures !ok && counter > mask ==> counter == old(counters[index])
      ensures !ok && counter <= mask ==> paused && counters[index] == counter + reserve
      ensures FirstFit(old(counters[index]), reserve, mask + 1) == if ok then Some(counter) else None
    {
      counter := FetchAdd(index, reserve);
      while true
        invariant Valid() && counters[index] == Add(counter, reserve)
        invariant counters[1 - index] == old(counters[1 - index])
        invariant old(counters[index]) <= counter && paused == old(paused)
        invariant counter > mask ==> counter == old(counters[index])
        invariant FirstFit(old(counters[index]), reserve, mask + 1) == FirstFit(counter, reserve, mask + 1)
        decreases if counter > mask then 0 else mask + 1 - counter
      {
        if mask < counter {
          return false, counter;
        }
        assert Add(counter, reserve) == counter + reserve;
        if mask - counter <= reserve - 1 {
          Pause(true);
          if mask - counter < reserve - 1 {
            return false, counter;
          }
        } else if TWO32 - 1 - counter % TWO32 < reserve - 1 {
          counter := FetchAdd(index, reserve);
          continue;
        }
        return true, counter;
      }
    }

    /**
     `next` (Nonce.cpp:33-65) for a mask of `bits` ones, of which it uses 63 at most. A range that is granted starts at
     `newNonce` within the mask; it was not taken before, is not taken again without a
     reset, stays within the mask and does not cross a 32-bit boundary. The bits of the
     nonce outside the mask are kept. A range that fits where the counter stands is
     granted; one that crosses a boundary is passed over for the next one (of ranges up to
     half a block, no more than one is); and it fails only when there is nothing left.
     */
    method Next(index: Index, nonce: Word64, reserve: Word64, bits: nat) returns (ok: bool, newNonce: int)
      requires Valid() && reserve < TWO32 && bits <= 64
      modifies `paused, `counters
      ensures Valid() && counters[1 - index] == old(counters[1 - index])
      ensures !ok ==> newNonce == nonce
      ensures ok ==> (
        var c := newNonce % Pow2(MaskBits(bits));
        && newNonce - c == nonce - nonce % Pow2(MaskBits(bits))
        && old(counters[index]) <= c < c + reserve == counters[index]
        && c + reserve <= Pow2(MaskBits(bits))
        && c % TWO32 + reserve <= TWO32
        && (paused <==> old(paused) || c + reserve == Pow2(MaskBits(bits))))
      ensures var c, p := old(counters[index]), Pow2(MaskBits(bits));
              && (0 < reserve && Fits(c, reserve) ==> (ok <==> c + reserve <= p) && (ok ==> newNonce % p == c))
              && (0 < reserve <= TWO32 / 2 && !Fits(c, reserve) ==>
                    (ok <==> c + 2 * reserve <= p) && (ok ==> newNonce % p == c + reserve))
              && (0 < reserve ==> FirstFit(c, reserve, p) == if ok then Some(newNonce % p) else None)
              && (!ok ==> reserve == 0 || reserve > p || c >= p || (paused && counters[index] > p))
    {
      var used := MaskBits(bits);
      Pow2Below(used);
      hide Pow2;
      var mask: Word64 := Pow2(used) - 1;
      if reserve == 0 || mask < reserve - 1 {
        return false, nonce;
      }
      FirstFits(counters[index], reserve, used);
      var counter;
      ok, counter := Claim(index, reserve, mask);
      if !ok {
        return false, nonce;
      }
      Masked(nonce, Pow2(used), counter);
      if counter + reserve == Pow2(used) {
        LastBlock(used, counter, reserve);
      }
      return true, nonce - nonce % Pow2(used) + counter;
    }
  }

  /** A range from `c` stays within its 32-bit block. */
  predicate Fits(c: nat, reserve: nat) {
    c % TWO32 + reserve <= TWO32
  }

  /** Past a boundary there is room for another range of up to half a block. */
  lemma {:induction false} FitsAfter(c: nat, reserve: nat)
    requires 0 < reserve <= TWO32 / 2 && !Fits(c, reserve)
    ensures Fits(c + reserve, reserve)
  {
    ModUnique(c + reserve, TWO32, c / TWO32 + 1, c % TWO32 + reserve - TWO32);
  }

  /** Which range it is, where the mask has `bits` ones. */
  lemma {:induction false} FirstFits(c: nat, reserve: nat, bits: nat)
    requires 0 < reserve < TWO32
    ensures var p := Pow2(bits);
            && (Fits(c, reserve) ==> FirstFit(c, reserve, p) == if c + reserve <= p then Some(c) else None)
            && (reserve <= TWO32 / 2 && !Fits(c, reserve) ==>
                  FirstFit(c, reserve, p) == if c + 2 * reserve <= p then Some(c + reserve) else None)
  {
    hide Pow2;
    if !Fits(c, reserve) {
      if c + reserve == Pow2(bits) {
        LastBlock(bits, c, reserve);
      }
      if reserve <= TWO32 / 2 {
        FitsAfter(c, reserve);
      }
    }
  }

  /** `mask &= 0x7FFFFFFFFFFFFFFF` on a mask of `bits` ones (Nonce.cpp:35). */
  function MaskBits(bits: nat): (n: nat)
    ensures n <= 63
  {
    if bits > 63 then 63 else bits
  }

  lemma {:induction false} Pow2Below(bits: nat)
    requires bits <= 63
    ensures Pow2(bits) <= TWO64 / 2
  {
    Pow2Of32();
    assert Pow2(31) * 2 == Pow2(32);
    Pow2Adds(31, 32);
    Pow2Adds(bits, 63 - bits);
    MulMono(Pow2(bits), 1, Pow2(63 - bits));
  }

  /** The last block of a mask ends on a 32-bit boundary or below the first one. */
  lemma {:induction false} LastBlock(bits: nat, c: nat, reserve: nat)
    requires 0 < reserve < TWO32 && c + reserve == Pow2(bits)
    ensures c % TWO32 + reserve <= TWO32
  {
    Pow2Of32();
    if bits < 32 {
      Pow2Adds(bits, 32 - bits);
      MulMono(Pow2(bits), 1, Pow2(32 - bits));
    } else {
      var q := Pow2(bits - 32);
      Pow2Adds(32, bits - 32);
      ModUnique(c, TWO32, q - 1, TWO32 - reserve);
    }
  }

  lemma {:induction false} Masked(nonce: nat, p: nat, c: nat)
    requires c < p
    ensures (nonce - nonce % p + c) % p == c
  {
    DivMod(nonce, p);
    ModUnique(nonce - nonce % p + c, p, nonce / p, c);
  }
}
