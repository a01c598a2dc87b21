// Values shared by every wrapper: bytes, 32-bit counters, big-endian
// encoding, and the Option/Result shapes used for error paths.

module Common {

  newtype byte = x: int | 0 <= x < 256

  type Bytes = seq<byte>

  const Two32: int := 0x1_0000_0000

  /** An unsigned 32-bit value (uint32_t). */
  type U32 = x: int | 0 <= x < 0x1_0000_0000

  datatype Option<T> = None | Some(value: T)

  datatype Result<T, E> = Ok(value: T) | Err(error: E)

  /** `n` zero bytes. */
  function Zeros(n: nat): (z: Bytes)
    ensures |z| == n
    ensures forall i :: 0 <= i < n ==> z[i] == 0
  {
    seq(n, _ => 0)
  }

  /** The four bytes of `n`, most significant first (network byte order). */
  function Be32(n: U32): (b: Bytes)
    ensures |b| == 4
  {
    [(n / 0x100_0000) as byte, ((n / 0x1_0000) % 0x100) as byte,
     ((n / 0x100) % 0x100) as byte, (n % 0x100) as byte]
  }

  /** The value of four bytes read most significant first. */
  function FromBe32(b: Bytes): (n: U32)
    requires |b| == 4
  {
    b[0] as int * 0x100_0000 + b[1] as int * 0x1_0000 + b[2] as int * 0x100 + b[3] as int
  }

  lemma Be32RoundTrip(n: U32)
    ensures FromBe32(Be32(n)) == n
  {
    var b := Be32(n);
    var q := n / 0x100;
    var r := q / 0x100;
    assert n == q * 0x100 + n % 0x100;
    assert q == r * 0x100 + q % 0x100;
    assert r == (n / 0x100_0000) * 0x100 + r % 0x100 by {
      assert r == n / 0x1_0000;
    }
  }

  lemma FromBe32RoundTrip(b: Bytes)
    requires |b| == 4
    ensures Be32(FromBe32(b)) == b
  {
    var n := FromBe32(b);
    assert n / 0x100 == b[0] as int * 0x1_0000 + b[1] as int * 0x100 + b[2] as int;
    assert n / 0x1_0000 == b[0] as int * 0x100 + b[1] as int;
    assert n / 0x100_0000 == b[0] as int;
  }

  /** Distinct 32-bit values have distinct encodings. */
  lemma Be32Injective(m: U32, n: U32)
    requires Be32(m) == Be32(n)
    ensures m == n
  {
    Be32RoundTrip(m);
    Be32RoundTrip(n);
  }
}
