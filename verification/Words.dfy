/**
 64-bit words as numbers, and the division facts they need.
 */
module Words {
  const WORD: int := 0x1_0000_0000_0000_0000
  const HALF: int := 0x8000_0000_0000_0000

  function Word(x: int): (w: nat)
    ensures w < WORD
  {
    x % WORD
  }

  lemma Multiples(k: int, n: int)
    requires 0 < n
    ensures k > 0 ==> k * n >= n
    ensures k < 0 ==> k * n <= -n
  {
  }

  lemma DivisionIsUnique(x: int, n: int, q: int, r: int)
    requires 0 <= r < n && x == q * n + r
    ensures x / n == q && x % n == r
  {
    var k := x / n - q;
    assert k * n == r - x % n;
    Multiples(k, n);
  }
}
