/** Capability handles and rights masks (kernel/cap/handle.hpp, kernel/cap/rights.hpp).

    A handle is a 32-bit word: a 24-bit slot index below an 8-bit generation.
    On unsigned words `h & 0x00FFFFFF` is `h % 2^24` and `h >> 24` is `h / 2^24`. */
module Handles {

  const WORD := 0x1_0000_0000
  const HANDLE_INVALID: Handle := 0xFFFF_FFFF
  const INDEX_SPAN := 0x100_0000
  const GENERATIONS := 0x100

  type Handle = h: nat | h < 0x1_0000_0000

  function Index(h: Handle): nat {
    h % INDEX_SPAN
  }

  function Gen(h: Handle): nat {
    h / INDEX_SPAN % GENERATIONS
  }

  function MakeHandle(index: nat, gen: nat): Handle
    requires gen < GENERATIONS
  {
    index % INDEX_SPAN + gen * INDEX_SPAN
  }

  /** Encoding then decoding is the identity, and a slot of a table with at most 0xFFFFFF entries never
      encodes to the invalid handle. */
  lemma HandleRoundTrip(index: nat, gen: nat)
    requires index < INDEX_SPAN && gen < GENERATIONS
    ensures Index(MakeHandle(index, gen)) == index
    ensures Gen(MakeHandle(index, gen)) == gen
    ensures MakeHandle(index, gen) == HANDLE_INVALID <==> index == 0xFFFFFF && gen == 0xFF
  {
    var h := MakeHandle(index, gen);
    assert h == gen * INDEX_SPAN + index;
    assert h / INDEX_SPAN == gen;
  }

  /** Decoding then encoding is the identity: a handle is no more than its index and its generation. */
  lemma HandleDecodes(h: Handle)
    ensures Index(h) < INDEX_SPAN && Gen(h) < GENERATIONS && MakeHandle(Index(h), Gen(h)) == h
  {
    assert h == h / INDEX_SPAN * INDEX_SPAN + h % INDEX_SPAN && h / INDEX_SPAN < GENERATIONS;
  }

  type Rights = bv32

  const CAP_DERIVE: Rights := 0x40
  const CAP_TRANSFER: Rights := 0x80
  const CAP_ALL: Rights := 0xFFFF_FFFF

  predicate HasRights(current: Rights, required: Rights) {
    current & required == required
  }

  /** `r` grants nothing that `bound` does not. */
  predicate Within(r: Rights, bound: Rights) {
    r & bound == r
  }

  lemma WithinTransitive(a: Rights, b: Rights, c: Rights)
    requires Within(a, b) && Within(b, c)
    ensures Within(a, c)
  {
    assert a & c == (a & b) & c == a & (b & c) == a & b == a;
  }

  lemma MaskWithin(a: Rights, b: Rights)
    ensures Within(a & b, a) && Within(a & b, b)
  {
  }
}
