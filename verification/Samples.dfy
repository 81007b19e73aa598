/** Samples, and iterators over them. */
module Samples {

  /** 64-bit signed arithmetic; that nothing overflows is part of the proofs. */
  newtype int64 = x: int | -0x8000_0000_0000_0000 <= x < 0x8000_0000_0000_0000

  const MAX: int64 := 0x7fff_ffff_ffff_ffff
  const MIN: int64 := -0x8000_0000_0000_0000

  /** A time and the 64-bit pattern of a floating-point value. */
  datatype Sample = Sample(t: int64, v: nat)

  ghost predicate Ordered(s: seq<Sample>) {
    forall i, j :: 0 <= i < j < |s| ==> s[i].t < s[j].t
  }

  /** An iterator over the samples of a chunk, as encoded. */
  class ChunkIterator {
    const samples: seq<Sample>
    var next: nat

    constructor (samples: seq<Sample>)
      ensures this.samples == samples && next == 0
    {
      this.samples, next := samples, 0;
    }

    method Next() returns (r: bool)
      modifies this
      ensures r <==> old(next) < |samples|
      ensures next == old(next) + if r then 1 else 0
    {
      r := next < |samples|;
      if r {
        next := next + 1;
      }
    }

    function At(): Sample
      requires 0 < next <= |samples|
      reads this
    {
      samples[next - 1]
    }
  }
}
