/** Small types, constants and arithmetic the modules share. */
module Basics {

  datatype Option<T> = None | Some(value: T)

  /** A byte of a message, read as unsigned. */
  type Octet = b: int | 0 <= b < 256

  const TWO64: nat := 0x1_0000_0000_0000_0000

  /** Capacity of a connection's send queue, and of the response list of a thread. */
  const QUEUE_CAPACITY: nat := 10240
  const RESPONSE_CAPACITY: nat := 1024 * 128

  type Pos = n: nat | n > 0 witness 1

  function Least(a: int, b: int): int { if a < b then a else b }

  lemma MultipleIsFar(k: int, n: Pos)
    ensures k >= 1 ==> k * n >= n
    ensures k <= -1 ==> k * n <= 0 - n
  {
    var m: int := n;
    if k >= 1 { assert k * m == m + (k - 1) * m; }
    if k <= -1 { assert k * m == -m + (k + 1) * m; }
  }

  /** Quotient and remainder are the only numbers that divide n by m. */
  lemma Divides(n: int, q: int, m: int, r: int)
    requires m > 0 && n == q * m + r && 0 <= r < m
    ensures n / m == q && n % m == r
  {
    var d := n / m - q;
    assert d * m == r - n % m;
    MultipleIsFar(d, m);
  }
}
