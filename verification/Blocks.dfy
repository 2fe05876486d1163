/** Folding a function over a byte string 64 bytes at a time. */
module Blocks {
  import opened Words

  type Bytes = seq<Byte>
  type Block = b: Bytes | |b| == 64 witness seq(64, i => 0)

  function Fold<S>(f: (S, Block) -> S, state: S, bytes: Bytes): S
    requires |bytes| % 64 == 0
    decreases |bytes|
  {
    if bytes == [] then state else Fold(f, f(state, bytes[..64]), bytes[64..])
  }

  lemma {:induction false} FoldConcat<S>(f: (S, Block) -> S, state: S, p: Bytes, q: Bytes)
    requires |p| % 64 == 0 && |q| % 64 == 0
    ensures Fold(f, state, p + q) == Fold(f, Fold(f, state, p), q)
    decreases |p|
  {
    if p == [] {
      assert p + q == q;
    } else {
      assert (p + q)[..64] == p[..64];
      assert (p + q)[64..] == p[64..] + q;
      FoldConcat(f, f(state, p[..64]), p[64..], q);
    }
  }

  lemma FoldOneMore<S>(f: (S, Block) -> S, state: S, p: Bytes, block: Block)
    requires |p| % 64 == 0
    ensures Fold(f, state, p + block) == f(Fold(f, state, p), block)
  {
    FoldConcat(f, state, p, block);
    var s := Fold(f, state, p);
    assert block[..64] == block && block[64..] == [];
    assert Fold(f, s, block) == Fold(f, f(s, block), []);
  }
}
