/** Bytes and the fixed-width integers carried in them. */
module Bytes {

  type byte = b: int | 0 <= b < 256
  type bytes = seq<byte>

  datatype Option<+T> = None | Some(value: T)

  /** Big-endian encodings, truncating as C assignments to `uint8_t` do. */
  function U16(n: nat): bytes { [(n / 256) % 256, n % 256] }

  function U24(n: nat): bytes { [(n / 65536) % 256, (n / 256) % 256, n % 256] }

  function GetU16(s: bytes, i: nat): nat
    requires i + 2 <= |s|
  {
    256 * (s[i] as int) + s[i + 1]
  }

  function GetU24(s: bytes, i: nat): nat
    requires i + 3 <= |s|
  {
    65536 * (s[i] as int) + 256 * (s[i + 1] as int) + s[i + 2]
  }

  lemma U16RoundTrip(n: nat)
    requires n < 65536
    ensures GetU16(U16(n), 0) == n
  {
  }

  lemma U24RoundTrip(n: nat)
    requires n < 0x100_0000
    ensures GetU24(U24(n), 0) == n
  {
  }

  function Zeros(n: nat): bytes { seq(n, _ => 0) }

  /** What a fixed-size buffer holds after `s` is written to it. */
  function Fit(s: bytes, n: nat): (r: bytes)
    ensures |r| == n
  {
    if |s| >= n then s[..n] else s + Zeros(n - |s|)
  }

  function Ascii(s: string): bytes { seq(|s|, i requires 0 <= i < |s| => (s[i] as int) % 256) }

  /** Exclusive or, bit by bit from the least significant. */
  function XorBits(a: nat, b: nat, n: nat): nat
    decreases n
  {
    if n == 0 then 0 else (a + b) % 2 + 2 * XorBits(a / 2, b / 2, n - 1)
  }

  lemma {:induction false} XorBitsBounded(a: nat, b: nat, n: nat)
    ensures XorBits(a, b, n) < Pow2(n)
    decreases n
  {
    if n > 0 { XorBitsBounded(a / 2, b / 2, n - 1); }
  }

  function Pow2(n: nat): nat { if n == 0 then 1 else 2 * Pow2(n - 1) }

  lemma SameBit(a: nat, b: nat, c: nat, x: nat, y: nat)
    requires (a + b) % 2 + 2 * x == (a + c) % 2 + 2 * y
    ensures x == y && b % 2 == c % 2
  {
  }

  lemma {:induction false} XorBitsCancels(a: nat, b: nat, c: nat, n: nat)
    requires b < Pow2(n) && c < Pow2(n)
    requires XorBits(a, b, n) == XorBits(a, c, n)
    ensures b == c
    decreases n
  {
    if n > 0 {
      SameBit(a, b, c, XorBits(a / 2, b / 2, n - 1), XorBits(a / 2, c / 2, n - 1));
      hide XorBits;
      assert b / 2 < Pow2(n - 1) && c / 2 < Pow2(n - 1);
      XorBitsCancels(a / 2, b / 2, c / 2, n - 1);
    }
  }

  function Xor(a: byte, b: byte): byte {
    XorBitsBounded(a, b, 8);
    assert Pow2(8) == 256 by { assert Pow2(4) == 16; }
    XorBits(a, b, 8)
  }

  lemma XorCancels(a: byte, b: byte, c: byte)
    requires Xor(a, b) == Xor(a, c)
    ensures b == c
  {
    assert Pow2(8) == 256 by { assert Pow2(4) == 16; }
    XorBitsCancels(a, b, c, 8);
  }

  /** Overwrite bytes of a buffer in place. */
  method Put(buf: array<byte>, off: nat, data: bytes) returns (next: nat)
    requires off + |data| <= buf.Length
    modifies buf
    ensures next == off + |data|
    ensures buf[..] == old(buf[..off]) + data + old(buf[off + |data|..])
  {
    for i := 0 to |data|
      invariant forall j :: 0 <= j < buf.Length ==>
                  buf[j] == if off <= j < off + i then data[j - off] else old(buf[j])
    {
      buf[off + i] := data[i];
    }
    next := off + |data|;
    assert buf[..off] == old(buf[..off]) && buf[off..next] == data && buf[next..] == old(buf[next..]);
    assert buf[..] == buf[..off] + buf[off..next] + buf[next..];
  }

  /** Write the next bytes, leaving everything from `stop` on as it was. */
  method Write(buf: array<byte>, off: nat, data: bytes, ghost stop: nat) returns (next: nat)
    requires off + |data| <= stop <= buf.Length
    modifies buf
    ensures next == off + |data| && buf[..next] == old(buf[..off]) + data && buf[stop..] == old(buf[stop..])
  {
    next := Put(buf, off, data);
    ghost var all := buf[..];
    assert buf[..next] == all[..next];
    assert buf[stop..] == all[stop..] == old(buf[next..])[stop - next..];
  }

  lemma RemainderOf(block: nat, q: int, r: nat)
    requires r < block
    ensures (block * q + r) % block == r
  {
    var x := block * q + r;
    assert x == block * (x / block) + x % block;
    MulMono(block, q + 1, x / block);
    MulMono(block, x / block, q - 1);
    assert block * (q + 1) == block * q + block && block * (q - 1) == block * q - block;
  }

  lemma MulMono(k: nat, a: int, b: int)
    ensures a <= b ==> k * a <= k * b
  {
    assert k * b - k * a == k * (b - a);
  }

  // ---------------------------------------------------------------- what these bytes mean

  /** Multi-byte fields are big-endian. */
  lemma NetworkOrder(n: nat, s: bytes, i: nat)
    requires i + 3 <= |s|
    ensures U16(n) == [n / 256 % 256, n % 256] && U24(n) == [n / 65536 % 256, n / 256 % 256, n % 256]
    ensures GetU16(s, i) == (s[i] as int) * 256 + s[i + 1]
    ensures GetU24(s, i) == (s[i] as int) * 65536 + (s[i + 1] as int) * 256 + s[i + 2]
  {
  }

  /** A byte string read as one number, most significant byte first. */
  function Number(s: bytes): nat { if s == [] then 0 else Number(s[..|s| - 1]) * 256 + s[|s| - 1] }

  function Bit(a: nat, i: nat): nat { if i == 0 then a % 2 else Bit(a / 2, i - 1) }

  lemma {:induction false} XorBitsBit(a: nat, b: nat, n: nat, i: nat)
    requires i < n
    ensures Bit(XorBits(a, b, n), i) == (Bit(a, i) + Bit(b, i)) % 2
    decreases n
  {
    HalfAndBit(a + b, XorBits(a / 2, b / 2, n - 1));
    if i == 0 {
      ParityOfSum(a, b);
    } else {
      XorBitsBit(a / 2, b / 2, n - 1, i - 1);
    }
  }

  lemma HalfAndBit(a: nat, x: nat)
    ensures (a % 2 + 2 * x) / 2 == x && (a % 2 + 2 * x) % 2 == a % 2
  {
  }

  lemma ParityOfSum(a: nat, b: nat)
    ensures (a + b) % 2 == (a % 2 + b % 2) % 2
  {
  }

  /** Exclusive or acts on every bit. */
  lemma XorBit(a: byte, b: byte, i: nat)
    requires i < 8
    ensures Bit(Xor(a, b), i) == if Bit(a, i) == Bit(b, i) then 0 else 1
  {
    XorBitsBit(a, b, 8, i);
    BitIsBit(a, i);
    BitIsBit(b, i);
  }

  lemma {:induction false} BitIsBit(a: nat, i: nat)
    ensures Bit(a, i) < 2
    decreases i
  {
    if i > 0 { BitIsBit(a / 2, i - 1); }
  }

  lemma {:induction false} XorBitsZero(b: nat, n: nat)
    requires b < Pow2(n)
    ensures XorBits(0, b, n) == b
    decreases n
  {
    if n > 0 { XorBitsZero(b / 2, n - 1); }
  }

  lemma {:induction false} XorBitsTwice(a: nat, b: nat, n: nat)
    requires b < Pow2(n)
    ensures XorBits(a, XorBits(a, b, n), n) == b
    decreases n
  {
    if n > 0 {
      XorBitsTwice(a / 2, b / 2, n - 1);
      LowBitTwice(a, b, XorBits(a / 2, b / 2, n - 1));
    }
  }

  lemma LowBitTwice(a: nat, b: nat, x: nat)
    ensures var s := (a + b) % 2 + 2 * x; s / 2 == x && (a + s) % 2 == b % 2
  {
  }

  /** Zero is neutral, and twice cancels. */
  lemma XorLaws(a: byte, b: byte)
    ensures Xor(0, b) == b && Xor(a, Xor(a, b)) == b
  {
    assert Pow2(8) == 256 by { assert Pow2(4) == 16; }
    XorBitsZero(b, 8);
    XorBitsTwice(a, b, 8);
  }
}
