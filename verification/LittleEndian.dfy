/**
 * Little-endian byte strings, as the machine words of a register or a buffer hold them.
 */
module LittleEndian {
  function LeValue(bytes: seq<nat>): nat {
    if bytes == [] then 0 else bytes[0] + 256 * LeValue(bytes[1..])
  }

  function LeBytes(v: nat, len: nat): (bytes: seq<nat>)
    ensures |bytes| == len
  {
    if len == 0 then [] else [v % 256] + LeBytes(v / 256, len - 1)
  }

  predicate Octets(bytes: seq<nat>) {
    forall i :: 0 <= i < |bytes| ==> bytes[i] < 256
  }

  function Power256(n: nat): (p: nat)
    ensures p > 0
  {
    if n == 0 then 1 else 256 * Power256(n - 1)
  }

  /** The value of n bytes fits in n bytes, and gives the same bytes back. */
  lemma {:induction false} ValueOfBytes(bytes: seq<nat>)
    requires Octets(bytes)
    ensures LeValue(bytes) < Power256(|bytes|)
    ensures LeBytes(LeValue(bytes), |bytes|) == bytes
  {
    if bytes != [] {
      ValueOfBytes(bytes[1..]);
      var rest := LeValue(bytes[1..]);
      assert (bytes[0] + 256 * rest) % 256 == bytes[0] && (bytes[0] + 256 * rest) / 256 == rest;
    }
  }

  /** The bytes of a value give back its low part. */
  lemma {:induction false} BytesOfValue(v: nat, len: nat)
    ensures Octets(LeBytes(v, len))
    ensures LeValue(LeBytes(v, len)) == v % Power256(len)
  {
    if len > 0 {
      BytesOfValue(v / 256, len - 1);
      assert LeBytes(v, len)[1..] == LeBytes(v / 256, len - 1);
      RemainderSplits(v, Power256(len - 1));
    }
  }

  /** Byte `i` of a value. */
  function ByteOf(v: nat, i: nat): nat {
    (v / Power256(i)) % 256
  }

  lemma {:induction false} BytesAreDigits(v: nat, len: nat, i: nat)
    requires i < len
    ensures LeBytes(v, len)[i] == ByteOf(v, i)
    decreases i
  {
    if i > 0 {
      BytesAreDigits(v / 256, len - 1, i - 1);
      DivideTwice(v, Power256(i - 1));
    }
  }

  lemma DivideTwice(v: nat, p: nat)
    requires p > 0
    ensures v / 256 / p == v / (256 * p)
  {
    RemainderSplits(v, p);
    var q := v / 256 / p;
    var x := v % (256 * p);
    assert v / 256 == q * p + (v / 256) % p;
    assert 256 * (q * p) == q * (256 * p);
    assert v == (v / (256 * p)) * (256 * p) + x;
    assert (q - v / (256 * p)) * (256 * p) == 0;
    MultipleIsFar(q - v / (256 * p), 256 * p);
  }

  lemma RemainderSplits(v: nat, p: nat)
    requires p > 0
    ensures v % 256 + 256 * ((v / 256) % p) == v % (256 * p)
  {
    var q := v / 256 / p;
    var x := v % 256 + 256 * ((v / 256) % p);
    assert v / 256 == q * p + (v / 256) % p;
    assert v == q * (256 * p) + x by {
      assert 256 * (q * p) == q * (256 * p);
    }
    assert (v / 256) % p <= p - 1;
    assert 0 <= x < 256 * p;
    QuotientUnique(v, 256 * p, q, x);
  }

  lemma MultipleIsFar(k: int, n: nat)
    ensures k == 0 || k * n >= n || k * n <= -(n as int)
  {
  }

  lemma QuotientUnique(v: nat, n: nat, q: int, x: nat)
    requires n > 0 && v == q * n + x && x < n
    ensures v % n == x
  {
    var r := v % n;
    var d := v / n;
    assert v == d * n + r;
    assert (d - q) * n == x - r;
    MultipleIsFar(d - q, n);
  }
}
