/** Octets, their exclusive or, and the 16-bit big-endian numbers made of them. */
module Bytes {

  type Byte = b: int | 0 <= b < 256

  datatype Option<+T> = None | Some(value: T) {
    function GetOr(default: T): T {
      if Some? then value else default
    }
  }

  /** Exclusive or, bit by bit from the least significant one. */
  function Xor(a: nat, b: nat): nat
    decreases a + b
  {
    if a == 0 then b
    else if b == 0 then a
    else (if a % 2 == b % 2 then 0 else 1) + 2 * Xor(a / 2, b / 2)
  }

  ghost predicate PowerOfTwo(m: nat) {
    m == 1 || (m > 0 && m % 2 == 0 && PowerOfTwo(m / 2))
  }

  lemma {:induction false} XorBound(a: nat, b: nat, m: nat)
    requires PowerOfTwo(m) && a < m && b < m
    ensures Xor(a, b) < m
    decreases a + b
  {
    if a != 0 && b != 0 {
      XorBound(a / 2, b / 2, m / 2);
    }
  }

  lemma {:induction false} XorZero(a: nat, b: nat)
    ensures Xor(a, b) == 0 <==> a == b
    decreases a + b
  {
    if a != 0 && b != 0 {
      XorZero(a / 2, b / 2);
    }
  }

  lemma {:induction false} XorCommutes(a: nat, b: nat)
    ensures Xor(a, b) == Xor(b, a)
    decreases a + b
  {
    if a != 0 && b != 0 {
      XorCommutes(a / 2, b / 2);
    }
  }

  lemma XorDigit(a: nat, b: nat)
    ensures Xor(a, b) % 2 == (if a % 2 == b % 2 then 0 else 1)
    ensures Xor(a, b) / 2 == Xor(a / 2, b / 2)
  {
    if a == 0 {
      assert Xor(a, b) == b && Xor(a / 2, b / 2) == b / 2;
    } else if b == 0 {
      assert Xor(a, b) == a && Xor(a / 2, b / 2) == a / 2;
    } else {
      assert Xor(a, b) == (if a % 2 == b % 2 then 0 else 1) + 2 * Xor(a / 2, b / 2);
      hide Xor;
    }
  }

  /** Two different numbers stay different under the same mask. */
  lemma {:induction false} XorCancels(mask: nat, a: nat, b: nat)
    requires a != b
    ensures Xor(mask, a) != Xor(mask, b)
    ensures Xor(a, mask) != Xor(b, mask)
    decreases a + b
  {
    XorDigit(mask, a);
    XorDigit(mask, b);
    XorCommutes(a, mask);
    XorCommutes(b, mask);
    if a % 2 == b % 2 {
      XorCancels(mask / 2, a / 2, b / 2);
    }
  }

  function ByteXor(a: Byte, b: Byte): Byte {
    assert Xor(a, b) < 256 by {
      assert PowerOfTwo(4);
      assert PowerOfTwo(16);
      assert PowerOfTwo(64);
      assert PowerOfTwo(256);
      XorBound(a, b, 256);
    }
    Xor(a, b)
  }

  /** The parity of a run of octets. */
  function XorAll(s: seq<Byte>): Byte {
    if s == [] then 0 else ByteXor(XorAll(s[..|s| - 1]), s[|s| - 1])
  }

  /** Changing exactly one octet of a run changes its parity. */
  lemma {:induction false} XorAllDetectsChange(s: seq<Byte>, i: nat, v: Byte)
    requires i < |s| && v != s[i]
    ensures XorAll(s[i := v]) != XorAll(s)
  {
    var t := s[i := v];
    var n := |s| - 1;
    if i == n {
      assert t[..n] == s[..n];
      XorCancels(XorAll(s[..n]), v, s[i]);
    } else {
      assert t[..n] == s[..n][i := v];
      XorAllDetectsChange(s[..n], i, v);
      XorCancels(s[n], XorAll(t[..n]), XorAll(s[..n]));
    }
  }

  /** The binary digit of weight two to the power `k`. */
  function Bit(n: nat, k: nat): (b: nat)
    ensures b < 2
  {
    if k == 0 then n % 2 else Bit(n / 2, k - 1)
  }

  /** How many octets of a run have bit `k` set. */
  function Ones(s: seq<Byte>, k: nat): nat {
    if s == [] then 0 else Ones(s[..|s| - 1], k) + Bit(s[|s| - 1], k)
  }

  lemma {:induction false} XorBit(a: nat, b: nat, k: nat)
    ensures Bit(Xor(a, b), k) == (Bit(a, k) + Bit(b, k)) % 2
    decreases k
  {
    XorDigit(a, b);
    if k > 0 {
      XorBit(a / 2, b / 2, k - 1);
    }
  }

  lemma {:induction false} ZeroBit(k: nat)
    ensures Bit(0, k) == 0
  {
    if k > 0 {
      ZeroBit(k - 1);
    }
  }

  /** A bit of the parity is set exactly when an odd number of octets have it set. */
  lemma {:induction false} ParityOfBits(s: seq<Byte>, k: nat)
    ensures Bit(XorAll(s), k) == Ones(s, k) % 2
  {
    if s == [] {
      ZeroBit(k);
    } else {
      var init, last := s[..|s| - 1], s[|s| - 1];
      var head := XorAll(init);
      assert XorAll(s) == Xor(head, last) && Ones(s, k) == Ones(init, k) + Bit(last, k);
      ParityOfBits(init, k);
      XorBit(head, last, k);
      hide *;
    }
  }

  function Power2(n: nat): nat { if n == 0 then 1 else 2 * Power2(n - 1) }

  lemma {:induction false} SameBits(a: nat, b: nat, n: nat)
    requires a < Power2(n) && b < Power2(n) && forall k: nat :: k < n ==> Bit(a, k) == Bit(b, k)
    ensures a == b
    decreases n
  {
    if n > 0 {
      assert Bit(a, 0) == Bit(b, 0);
      forall k: nat | k < n - 1 ensures Bit(a / 2, k) == Bit(b / 2, k) {
        assert Bit(a, k + 1) == Bit(b, k + 1);
      }
      SameBits(a / 2, b / 2, n - 1);
    }
  }

  /** An octet is known by its eight bits. */
  lemma BitsDetermine(a: Byte, b: Byte)
    requires forall k: nat :: k < 8 ==> Bit(a, k) == Bit(b, k)
    ensures a == b
  {
    assert Power2(4) == 16 && Power2(8) == 16 * Power2(4);
    SameBits(a, b, 8);
  }

  /** The octets of a 16-bit number in network order, as `htons` leaves them in memory. */
  function NetworkOrder(n: int): (s: seq<Byte>)
    ensures |s| == 2
  {
    var u := n % 0x10000;
    [u / 256, u % 256]
  }

  /** A 16-bit pattern read as a signed short. */
  function ToShort(u: int): int
    requires 0 <= u < 0x10000
  {
    if u < 0x8000 then u else u - 0x10000
  }

  /** `ntohs` of two octets in memory, read as a signed short. */
  function FromNetwork(hi: Byte, lo: Byte): int {
    ToShort(hi * 256 + lo)
  }

  lemma NetworkOrderOf(hi: Byte, lo: Byte)
    ensures NetworkOrder(hi * 256 + lo) == [hi, lo]
  {
  }

  lemma NetworkOrderRoundTrip(n: int)
    requires -0x8000 <= n < 0x8000
    ensures FromNetwork(NetworkOrder(n)[0], NetworkOrder(n)[1]) == n
  {
  }
}
