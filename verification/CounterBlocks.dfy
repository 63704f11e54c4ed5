/** The counter block of CTR mode. */
module CounterBlocks {
  // A 16-byte big-endian number, and the in-place addition of a block count with its carry loop
  // (backend-transfer-go/internal/crypto/crypto.go, backend/src/crypto/crypto.service.ts; Appendix B.1 of
  // NIST SP 800-38A).

  type Octet = x: int | 0 <= x < 256

  // ---------------------------------------------------------------- big-endian numbers

  /** c times 256^n. */
  function Scaled(c: int, n: nat): int {
    if n == 0 then c else 256 * Scaled(c, n - 1)
  }

  /** `v` without its last `k` base-256 digits. */
  function Shifted(v: nat, k: nat): nat {
    if k == 0 then v else Shifted(v / 256, k - 1)
  }

  function BigEndian(s: seq<Octet>): nat {
    if |s| == 0 then 0 else 256 * BigEndian(s[..|s| - 1]) + s[|s| - 1]
  }

  /** The last `n` base-256 digits of `v`, most significant first. */
  function Digits(v: nat, n: nat): seq<Octet> {
    seq(n, i requires 0 <= i < n => Shifted(v, n - 1 - i) % 256)
  }

  lemma DigitsStep(v: nat, n: nat)
    requires n > 0
    ensures Digits(v, n) == Digits(v / 256, n - 1) + [v % 256]
  {
    forall i | 0 <= i < n - 1 ensures Digits(v, n)[i] == Digits(v / 256, n - 1)[i] {
      assert Shifted(v, n - 1 - i) == Shifted(v / 256, n - 2 - i);
    }
    assert Shifted(v, 0) == v;
  }

  lemma {:induction false} DigitsOfValue(s: seq<Octet>)
    ensures Digits(BigEndian(s), |s|) == s
    ensures BigEndian(s) < Scaled(1, |s|)
  {
    if |s| > 0 {
      var front, last := s[..|s| - 1], s[|s| - 1];
      DigitsOfValue(front);
      DigitsStep(BigEndian(s), |s|);
      assert s == front + [last];
    }
  }

  lemma {:induction false} ScaledAdds(a: int, b: int, n: nat)
    ensures Scaled(a + b, n) == Scaled(a, n) + Scaled(b, n)
    ensures a >= 0 ==> Scaled(a, n) >= 0
    ensures Scaled(256 * a, n) == Scaled(a, n + 1)
  {
    if n > 0 { ScaledAdds(a, b, n - 1); }
  }

  /** Multiples of 256^n do not change the last n digits. */
  lemma {:induction false} DigitsModulo(v: nat, k: nat, n: nat)
    ensures Scaled(k, n) >= 0 && Digits(v + Scaled(k, n), n) == Digits(v, n)
  {
    ScaledAdds(k, 0, n);
    if n > 0 {
      ScaledAdds(k, 0, n - 1);
      DigitsStep(v + Scaled(k, n), n);
      DigitsStep(v, n);
      DigitsModulo(v / 256, k, n - 1);
    }
  }

  /** The value of the last n digits is the remainder: what is cut off is a multiple of 256^n. */
  lemma {:induction false} ValueOfDigits(v: nat, n: nat)
    ensures v == BigEndian(Digits(v, n)) + Scaled(Shifted(v, n), n)
  {
    if n > 0 {
      ValueOfDigits(v / 256, n - 1);
      DigitsStep(v, n);
      assert Digits(v, n)[..n - 1] == Digits(v / 256, n - 1);
    }
  }

  lemma {:induction false} SetDigit(s: seq<Octet>, i: nat, b: Octet)
    requires i < |s|
    ensures BigEndian(s[i := b]) == BigEndian(s) + Scaled(b - s[i], |s| - 1 - i)
  {
    var front := s[..|s| - 1];
    if i == |s| - 1 {
      assert s[i := b][..|s| - 1] == front;
    } else {
      SetDigit(front, i, b);
      assert s[i := b][..|s| - 1] == front[i := b];
    }
  }

  // ---------------------------------------------------------------- the counter

  /** The counter block `n` blocks after `iv`: addition modulo 2^128. */
  function CounterAt(iv: seq<Octet>, n: nat): seq<Octet> {
    Digits(BigEndian(iv) + n, |iv|)
  }

  /** The sum modulo 256^16 as a number: the block's value differs from iv + n by a multiple of it. */
  lemma CounterValue(iv: seq<Octet>, n: nat)
    ensures |CounterAt(iv, n)| == |iv|
    ensures BigEndian(iv) + n == BigEndian(CounterAt(iv, n)) + Scaled(Shifted(BigEndian(iv) + n, |iv|), |iv|)
    ensures BigEndian(CounterAt(iv, n)) < Scaled(1, |iv|)
  {
    ValueOfDigits(BigEndian(iv) + n, |iv|);
    DigitsOfValue(CounterAt(iv, n));
  }

  lemma CounterAdds(iv: seq<Octet>, a: nat, b: nat)
    ensures CounterAt(iv, 0) == iv
    ensures CounterAt(CounterAt(iv, a), b) == CounterAt(iv, a + b)
  {
    DigitsOfValue(iv);
    CounterValue(iv, a);
    DigitsModulo(BigEndian(CounterAt(iv, a)) + b, Shifted(BigEndian(iv) + a, |iv|), |iv|);
  }

  const TWO_TO_128 := 0x1_0000_0000_0000_0000_0000_0000_0000_0000

  lemma Quotient(v: nat) returns (m: nat)
    ensures v == v % TWO_TO_128 + m * TWO_TO_128
  {
    m := v / TWO_TO_128;
  }

  lemma ScaledIs(c: int)
    ensures Scaled(c, 16) == c * TWO_TO_128
  {
    ScaledFour(c);
    ScaledMore(c, 4, 4);
    ScaledFour(Scaled(c, 4));
    ScaledMore(c, 8, 4);
    ScaledFour(Scaled(c, 8));
    ScaledMore(c, 12, 4);
    ScaledFour(Scaled(c, 12));
  }

  lemma ScaledFour(c: int)
    ensures Scaled(c, 4) == c * 0x1_0000_0000
  {
    assert Scaled(c, 1) == 256 * c && Scaled(c, 2) == 256 * Scaled(c, 1) && Scaled(c, 3) == 256 * Scaled(c, 2);
  }

  lemma {:induction false} ScaledMore(c: int, m: nat, n: nat)
    ensures Scaled(c, m + n) == Scaled(Scaled(c, m), n)
  {
    if n > 0 { ScaledMore(c, m, n - 1); }
  }

  /** For 16 bytes the sum is the one modulo 2^128. */
  lemma CounterSum(iv: seq<Octet>, n: nat)
    requires |iv| == 16
    ensures BigEndian(CounterAt(iv, n)) == (BigEndian(iv) + n) % TWO_TO_128
  {
    CounterValue(iv, n);
    ScaledIs(1);
    ScaledIs(Shifted(BigEndian(iv) + n, 16));
    RemainderIs(BigEndian(iv) + n, BigEndian(CounterAt(iv, n)), Shifted(BigEndian(iv) + n, 16));
  }

  lemma RemainderIs(v: nat, r: nat, m: nat)
    requires r < TWO_TO_128 && v == r + m * TWO_TO_128
    ensures v % TWO_TO_128 == r
  {
  }

  /** One round of the carry loop keeps the value that is being added up. */
  lemma CarryStep(s: seq<Octet>, i: nat, carry: nat)
    requires i < |s|
    ensures var sum: nat := s[i] + carry;
      BigEndian(s[i := sum % 256]) + Scaled(sum / 256, |s| - i) == BigEndian(s) + Scaled(carry, |s| - 1 - i)
  {
    var sum: nat := s[i] + carry;
    var n := |s| - 1 - i;
    SetDigit(s, i, sum % 256);
    ScaledAdds(sum / 256, 0, n);
    ScaledAdds(256 * (sum / 256), sum % 256 - s[i], n);
  }

  /** When the loop ends, nothing is carried or the carry has left the array. */
  lemma CarryEnd(iv: seq<Octet>, blocks: nat, s: seq<Octet>, carry: nat)
    requires |iv| == |s| && BigEndian(s) + Scaled(carry, |s|) == BigEndian(iv) + blocks
    ensures s == CounterAt(iv, blocks)
  {
    DigitsOfValue(s);
    DigitsModulo(BigEndian(s), carry, |s|);
  }

  /** The carry loop: afterwards the array holds (iv + blocks) mod 2^128. */
  method AddBlocks(iv: array<Octet>, blocks: nat)
    requires iv.Length == 16
    modifies iv
    ensures iv[..] == CounterAt(old(iv[..]), blocks)
    ensures BigEndian(iv[..]) == (BigEndian(old(iv[..])) + blocks) % TWO_TO_128
  {
    CounterSum(iv[..], blocks);
    var carry := blocks;
    var i := 15;
    ghost var target := BigEndian(iv[..]) + blocks;
    while i >= 0 && carry > 0
      invariant -1 <= i <= 15 && carry >= 0
      invariant BigEndian(iv[..]) + Scaled(carry, 15 - i) == target
    {
      ghost var before := iv[..];
      CarryStep(before, i, carry);
      var sum: nat := iv[i] + carry;
      iv[i] := sum % 256;
      assert iv[..] == before[i := iv[i]];
      carry := sum / 256;
      i := i - 1;
    }
    if carry == 0 {
      ScaledZero(15 - i);
      ScaledZero(16);
    }
    CarryEnd(old(iv[..]), blocks, iv[..], carry);
  }

  lemma {:induction false} ScaledZero(n: nat)
    ensures Scaled(0, n) == 0
  {
    if n > 0 { ScaledZero(n - 1); }
  }
}
