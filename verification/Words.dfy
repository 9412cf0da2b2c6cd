/** Machine words and byte strings shared by every component. */
module Words {
  const TWO64: int := 0x1_0000_0000_0000_0000
  const MAX64: int := 0xFFFF_FFFF_FFFF_FFFF

  /** A Go `uint64` is an integer below 2^64; arithmetic that can wrap is written with `Wrap`.
      Byte strings are sequences of integers below 256, so shifts and masks become
      multiplication, division and remainder by powers of 256. */
  type U64 = x: int | 0 <= x < 0x1_0000_0000_0000_0000
  type Byte = b: int | 0 <= b < 256
  type Bytes = seq<Byte>

  datatype Option<+T> = None | Some(value: T)

  function Wrap(x: int): (r: U64)
    ensures 0 <= x <= MAX64 ==> r == x
  {
    x % 0x1_0000_0000_0000_0000
  }

  lemma WrapsOnce(x: int)
    requires TWO64 <= x < 2 * TWO64
    ensures Wrap(x) == x - TWO64
  {
  }

  /** Wrapping after every addition is wrapping once at the end. */
  lemma WrapAdds(x: int, y: int)
    ensures Wrap(Wrap(x) + y) == Wrap(x + y)
  {
    var q := x / 0x1_0000_0000_0000_0000;
    assert x == q * 0x1_0000_0000_0000_0000 + Wrap(x);
    ShiftedRemainder(Wrap(x) + y, q, 0x1_0000_0000_0000_0000);
  }

  lemma SmallMultiple(d: int, n: int)
    requires n > 0 && -n < d * n < n
    ensures d == 0
  {
  }

  /** A remainder is determined by its defining equation. */
  lemma RemainderIs(a: int, n: int, q: int, r: int)
    requires n > 0 && 0 <= r < n && a == q * n + r
    ensures a % n == r
  {
    var d := q - a / n;
    assert a == (a / n) * n + a % n;
    assert d * n == a % n - r by {
      assert d * n == q * n - (a / n) * n;
    }
    SmallMultiple(d, n);
  }

  lemma ShiftedRemainder(a: int, q: int, n: int)
    requires n > 0
    ensures (a + q * n) % n == a % n
  {
    assert a == (a / n) * n + a % n;
    assert a + q * n == (a / n + q) * n + a % n by {
      assert (a / n + q) * n == (a / n) * n + q * n;
    }
    RemainderIs(a + q * n, n, a / n + q, a % n);
  }

  /** Shifting a byte into a `uint64` that already wrapped. */
  lemma WrapShifts(x: int, b: Byte)
    ensures Wrap(Wrap(x) * 256 + b) == Wrap(x * 256 + b)
  {
    var q := x / 0x1_0000_0000_0000_0000;
    assert x == Wrap(x) + q * 0x1_0000_0000_0000_0000;
    ShiftedRemainder(Wrap(x) * 256 + b, q * 256, 0x1_0000_0000_0000_0000);
  }

  lemma {:induction false} SmallerSet<T>(a: set<T>, b: set<T>)
    requires a <= b
    ensures |a| <= |b|
  {
    if a != {} {
      var x :| x in a;
      SmallerSet(a - {x}, b - {x});
    }
  }

  function Pow256(k: nat): (p: nat)
    ensures p >= 1
  {
    if k == 0 then 1 else 256 * Pow256(k - 1)
  }

  lemma {:induction false} Pow256Monotone(i: nat, j: nat)
    requires i <= j
    ensures Pow256(i) <= Pow256(j)
    decreases j - i
  {
    if i < j {
      Pow256Monotone(i + 1, j);
    }
  }

  /** The number a big-endian byte string denotes. */
  function FromBE(bs: Bytes): nat {
    if bs == [] then 0 else FromBE(bs[..|bs| - 1]) * 256 + bs[|bs| - 1]
  }

  /** The shortest big-endian byte string for `n`; zero has none (`big.Int.Bytes`). */
  function MinBE(n: nat): Bytes {
    if n == 0 then [] else MinBE(n / 256) + [n % 256]
  }

  /** The `k` low bytes of `n`, most significant first (`binary.BigEndian.PutUintXX`). */
  function FixedBE(n: nat, k: nat): (bs: Bytes)
    ensures |bs| == k
  {
    if k == 0 then [] else FixedBE(n / 256, k - 1) + [n % 256]
  }

  lemma {:induction false} FromBEBound(bs: Bytes)
    ensures FromBE(bs) < Pow256(|bs|)
  {
    if bs != [] {
      FromBEBound(bs[..|bs| - 1]);
    }
  }

  /** The first byte weighs most. */
  lemma {:induction false} FirstByteWeighsMost(b: Byte, rest: Bytes)
    ensures FromBE([b] + rest) == b * Pow256(|rest|) + FromBE(rest)
  {
    if rest == [] {
      assert [b] + rest == [b] && [b][..0] == [];
    } else {
      var front := rest[..|rest| - 1];
      FirstByteWeighsMost(b, front);
      assert ([b] + rest)[..|rest|] == [b] + front;
      assert b * Pow256(|rest|) == b * Pow256(|front|) * 256;
    }
  }

  lemma {:induction false} MinBERoundTrip(n: nat)
    ensures FromBE(MinBE(n)) == n
  {
    if n != 0 {
      MinBERoundTrip(n / 256);
      assert MinBE(n)[..|MinBE(n)| - 1] == MinBE(n / 256);
    }
  }

  lemma {:induction false} FixedBERoundTrip(n: nat, k: nat)
    requires n < Pow256(k)
    ensures FromBE(FixedBE(n, k)) == n
  {
    if k != 0 {
      FixedBERoundTrip(n / 256, k - 1);
      assert FixedBE(n, k)[..k - 1] == FixedBE(n / 256, k - 1);
    }
  }

  /** Reading a byte string as a number and writing it back at its length. */
  lemma {:induction false} FixedBEOfFromBE(bs: Bytes)
    ensures FixedBE(FromBE(bs), |bs|) == bs
  {
    if bs != [] {
      FixedBEOfFromBE(bs[..|bs| - 1]);
    }
  }

  /** The shortest form fits in `k` bytes exactly when the number is below 256^k. */
  lemma {:induction false} MinBELength(n: nat, k: nat)
    ensures |MinBE(n)| <= k <==> n < Pow256(k)
  {
    if n != 0 && k != 0 {
      MinBELength(n / 256, k - 1);
    }
  }

  lemma {:induction false} MinBENoLeadingZero(n: nat)
    requires n > 0
    ensures |MinBE(n)| > 0 && MinBE(n)[0] > 0
  {
    if n / 256 > 0 {
      MinBENoLeadingZero(n / 256);
    }
  }

  function Zeros(k: nat): Bytes {
    seq(k, i => 0)
  }

  /** The fixed form is the shortest form behind zero bytes. */
  lemma {:induction false} FixedIsPadded(n: nat, k: nat)
    requires n < Pow256(k)
    ensures |MinBE(n)| <= k && FixedBE(n, k) == Zeros(k - |MinBE(n)|) + MinBE(n)
  {
    MinBELength(n, k);
    if k != 0 {
      FixedIsPadded(n / 256, k - 1);
    }
  }

  /** Eight bytes name a `uint64` uniquely. */
  lemma U64Bytes(n: U64)
    ensures FromBE(FixedBE(n, 8)) == n
  {
    Pow256Of8();
    FixedBERoundTrip(n, 8);
  }

  lemma Pow256Of8()
    ensures Pow256(8) == TWO64
  {
    assert Pow256(4) == 0x1_0000_0000;
    assert Pow256(8) == 256 * Pow256(7);
    assert Pow256(7) == 256 * Pow256(6);
    assert Pow256(6) == 256 * Pow256(5);
  }

  /** `bytes.Compare`: negative, zero or positive. */
  function Compare(a: Bytes, b: Bytes): int {
    if a == [] then (if b == [] then 0 else -1)
    else if b == [] then 1
    else if a[0] != b[0] then a[0] - b[0]
    else Compare(a[1..], b[1..])
  }

  /** The sign of a comparison: the first byte that differs decides, and a proper prefix comes first. */
  lemma {:induction false} CompareMeaning(a: Bytes, b: Bytes, i: nat)
    requires i <= |a| && i <= |b| && a[..i] == b[..i]
    ensures i < |a| && i < |b| && a[i] < b[i] ==> Compare(a, b) < 0
    ensures i == |a| < |b| ==> Compare(a, b) < 0
  {
    if i > 0 {
      assert a[..i][0] == b[..i][0];
      assert a[1..][..i - 1] == a[..i][1..] && b[1..][..i - 1] == b[..i][1..];
      CompareMeaning(a[1..], b[1..], i - 1);
    }
  }

  lemma {:induction false} CompareZero(a: Bytes, b: Bytes)
    ensures Compare(a, b) == 0 <==> a == b
  {
    if a != [] && b != [] && a[0] == b[0] {
      CompareZero(a[1..], b[1..]);
      assert a == [a[0]] + a[1..] && b == [b[0]] + b[1..];
    }
  }

  lemma {:induction false} CompareFlips(a: Bytes, b: Bytes)
    ensures Compare(a, b) < 0 <==> Compare(b, a) > 0
  {
    if a != [] && b != [] && a[0] == b[0] {
      CompareFlips(a[1..], b[1..]);
    }
  }

  lemma {:induction false} CompareTransitive(a: Bytes, b: Bytes, c: Bytes)
    requires Compare(a, b) < 0 && Compare(b, c) < 0
    ensures Compare(a, c) < 0
  {
    if a != [] && b != [] && c != [] && a[0] == b[0] == c[0] {
      CompareTransitive(a[1..], b[1..], c[1..]);
    }
  }
}
