module Prelude {
  datatype Option<+T> = None | Some(value: T)

  function Lookup<K, V>(m: map<K, V>, key: K): Option<V> {
    if key in m then Some(m[key]) else None
  }
}

/** Counters of 64 bits, which wrap round. */
module Words {
  const WORD: nat := 0x1_0000_0000_0000_0000

  lemma SameResidue(x: int, q: int)
    ensures (x + q * WORD) % WORD == x % WORD
  {
  }

  lemma AddThenReduce(a: int, k: int)
    ensures (a % WORD + k) % WORD == (a + k) % WORD
  {
    var q := a / WORD;
    assert a == q * WORD + a % WORD;
    SameResidue(a % WORD + k, q);
  }

  lemma ReduceSubtrahend(a: int, b: int)
    ensures (a - b % WORD) % WORD == (a - b) % WORD
  {
    var q := b / WORD;
    assert b == q * WORD + b % WORD;
    SameResidue(a - b, q);
  }
}
