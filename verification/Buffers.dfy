/** Output buffer chains. */
module Buffers {

  /** The contents of a chain's buffers, link by link. */
  type Chain = seq<string>

  function Flat(chain: Chain): string {
    if chain == [] then "" else Flat(chain[..|chain| - 1]) + chain[|chain| - 1]
  }

  lemma FlatSnoc(chain: Chain, s: string)
    ensures Flat(chain + [s]) == Flat(chain) + s
  {
    assert (chain + [s])[..|chain|] == chain;
  }

  lemma {:induction false} FlatConcat(a: Chain, b: Chain)
    ensures Flat(a + b) == Flat(a) + Flat(b)
    decreases |b|
  {
    if b == [] {
      assert a + b == a;
    } else {
      FlatConcat(a, b[..|b| - 1]);
      assert (a + b)[..|a + b| - 1] == a + b[..|b| - 1];
    }
  }

  /** `nchan_bufchain_pool_t`, as far as appending goes: the links and their running length. */
  class BufChain {
    var links: Chain
    var length: nat

    /** The length that will be declared is the number of bytes that will be sent. */
    ghost predicate Valid()
      reads this
    {
      length == |Flat(links)|
    }

    constructor ()
      ensures Valid() && links == []
    {
      links, length := [], 0;
    }

    method Append(s: string)
      requires Valid()
      modifies this
      ensures Valid() && Flat(links) == Flat(old(links)) + s
    {
      FlatSnoc(links, s);
      links := links + [s];
      length := length + |s|;
    }
  }
}
