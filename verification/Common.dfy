/** Failure-compatible results shared by the modules below. */
module Results {

  datatype Option<+T> = None | Some(value: T)

  datatype Result<+T, +E> = Success(value: T) | Failure(error: E) {
    predicate IsFailure() {
      Failure?
    }

    function PropagateFailure<U>(): Result<U, E>
      requires Failure?
    {
      Failure(error)
    }

    function Extract(): T
      requires Success?
    {
      value
    }
  }
}

/** Byte strings, their lexicographic order and little-endian integers. */
module Bytes {

  type byte = b: int | 0 <= b < 256

  type ByteString = seq<byte>

  /** The derived order on byte vectors. */
  predicate LexLess(a: ByteString, b: ByteString)
    decreases |a|
  {
    b != [] && (a == [] || a[0] < b[0] || (a[0] == b[0] && LexLess(a[1..], b[1..])))
  }

  lemma {:induction false} LexAsymmetric(a: ByteString, b: ByteString)
    ensures !(LexLess(a, b) && LexLess(b, a))
    decreases |a|
  {
    if a != [] && b != [] {
      LexAsymmetric(a[1..], b[1..]);
    }
  }

  ghost predicate DifferFirstAt(a: ByteString, b: ByteString, k: int) {
    0 <= k < |a| && k < |b| && a[k] != b[k] && forall i :: 0 <= i < k ==> a[i] == b[i]
  }

  lemma DifferFirstInRest(a: ByteString, b: ByteString, k: nat)
    requires a != [] && b != [] && a[0] == b[0]
    ensures DifferFirstAt(a, b, k + 1) <==> DifferFirstAt(a[1..], b[1..], k)
  {
    if DifferFirstAt(a[1..], b[1..], k) {
      forall i | 0 <= i < k + 1
        ensures a[i] == b[i]
      {
        assert i > 0 ==> a[i] == a[1..][i - 1] && b[i] == b[1..][i - 1];
      }
    }
  }

  /** Two byte strings compare by the first byte in which they differ, or the shorter one is the smaller. */
  lemma {:induction false} LexIsFirstDifference(a: ByteString, b: ByteString)
    ensures LexLess(a, b) <==> (a <= b && a != b) || exists k :: DifferFirstAt(a, b, k) && a[k] < b[k]
    decreases |a|
  {
    if a != [] && b != [] {
      if a[0] == b[0] {
        LexIsFirstDifference(a[1..], b[1..]);
        assert a == [a[0]] + a[1..] && b == [b[0]] + b[1..];
        if k :| DifferFirstAt(a, b, k) && a[k] < b[k] {
          DifferFirstInRest(a, b, k - 1);
        }
        if k :| DifferFirstAt(a[1..], b[1..], k) && a[1..][k] < b[1..][k] {
          DifferFirstInRest(a, b, k);
        }
      } else {
        assert DifferFirstAt(a, b, 0);
      }
    }
  }

  lemma {:induction false} LexTotal(a: ByteString, b: ByteString)
    ensures a == b || LexLess(a, b) || LexLess(b, a)
    decreases |a|
  {
    if a != [] && b != [] {
      LexTotal(a[1..], b[1..]);
      assert a == [a[0]] + a[1..] && b == [b[0]] + b[1..];
    }
  }

  /** Comparing equally long heads first and the tails only on a tie is the lexicographic order. */
  lemma {:induction false} LexSplit(a: ByteString, x: ByteString, b: ByteString, y: ByteString)
    requires |a| == |b|
    ensures LexLess(a + x, b + y) <==> LexLess(a, b) || (a == b && LexLess(x, y))
    decreases |a|
  {
    if a == [] {
      assert a + x == x && b + y == y;
    } else {
      assert (a + x)[1..] == a[1..] + x && (b + y)[1..] == b[1..] + y;
      LexSplit(a[1..], x, b[1..], y);
    }
  }

  function Pow(base: nat, n: nat): nat {
    if n == 0 then 1 else base * Pow(base, n - 1)
  }

  /** The `n` low bytes of `x`, least significant first. */
  function LittleEndian(x: nat, n: nat): (bytes: ByteString)
    ensures |bytes| == n
  {
    if n == 0 then [] else [x % 256] + LittleEndian(x / 256, n - 1)
  }

  function FromLittleEndian(bytes: ByteString): nat {
    if bytes == [] then 0 else bytes[0] + 256 * FromLittleEndian(bytes[1..])
  }

  /** Integers that fit survive the trip through their bytes. */
  lemma {:induction false} LittleEndianRoundTrip(x: nat, n: nat)
    requires x < Pow(256, n)
    ensures FromLittleEndian(LittleEndian(x, n)) == x
  {
    if n > 0 {
      LittleEndianRoundTrip(x / 256, n - 1);
      assert LittleEndian(x, n)[1..] == LittleEndian(x / 256, n - 1);
    }
  }

  /** Bytes survive the trip through their integer. */
  lemma {:induction false} BytesRoundTrip(bytes: ByteString)
    ensures LittleEndian(FromLittleEndian(bytes), |bytes|) == bytes
    ensures FromLittleEndian(bytes) < Pow(256, |bytes|)
  {
    if bytes != [] {
      BytesRoundTrip(bytes[1..]);
    }
  }

  const U32_LIMIT: nat := 0x1_0000_0000

  lemma FourBytesLimit()
    ensures Pow(256, 4) == U32_LIMIT
  {
    assert Pow(256, 2) == 65536;
    assert Pow(256, 4) == 256 * (256 * Pow(256, 2));
  }

  lemma FourBytesHoldU32(x: nat)
    requires x < U32_LIMIT
    ensures FromLittleEndian(LittleEndian(x, 4)) == x
  {
    FourBytesLimit();
    LittleEndianRoundTrip(x, 4);
  }

  /** The common header of the index files: a version and two 32-bit integers. */
  function Header(version: byte, first: nat, second: nat): ByteString {
    [version] + LittleEndian(first, 4) + LittleEndian(second, 4)
  }

  lemma HeaderRoundTrip(version: byte, first: nat, second: nat, rest: ByteString)
    requires first < U32_LIMIT && second < U32_LIMIT
    ensures var bytes := Header(version, first, second) + rest;
            && |bytes| == 9 + |rest|
            && bytes[0] == version
            && FromLittleEndian(bytes[1..5]) == first
            && FromLittleEndian(bytes[5..9]) == second
            && bytes[9..] == rest
  {
    FourBytesHoldU32(first);
    FourBytesHoldU32(second);
    var bytes := Header(version, first, second) + rest;
    assert bytes[1..5] == LittleEndian(first, 4);
    assert bytes[5..9] == LittleEndian(second, 4);
  }
}
