/**
 * `compare_digest`, `pbkdf2_hmac` and `LocalThreadCache` of rethinkdb/handshake.py, the stand-ins for
 * what an old standard library lacks. HMAC is a parameter.
 */
module KeyDerivation {
  import opened ByteStrings
  import opened Wrappers

  const DIGEST_SIZE := 32

  type Digest = d: Bytes | |d| == DIGEST_SIZE witness seq(DIGEST_SIZE, _ => 0)
  type Mac = (Bytes, Bytes) -> Digest

  // ----- bitwise operations on numbers, as Python has them -----

  function Xor(a: nat, b: nat): nat {
    if a == 0 && b == 0 then 0 else 2 * Xor(a / 2, b / 2) + (if a % 2 == b % 2 then 0 else 1)
  }

  function Or(a: nat, b: nat): nat {
    if a == 0 && b == 0 then 0 else 2 * Or(a / 2, b / 2) + (if a % 2 == 0 && b % 2 == 0 then 0 else 1)
  }

  lemma {:induction false} XorIsZero(a: nat, b: nat)
    ensures Xor(a, b) == 0 <==> a == b
  {
    if a != 0 || b != 0 {
      XorIsZero(a / 2, b / 2);
    }
  }

  lemma {:induction false} OrIsZero(a: nat, b: nat)
    ensures Or(a, b) == 0 <==> a == 0 && b == 0
  {
    if a != 0 || b != 0 {
      OrIsZero(a / 2, b / 2);
    }
  }

  function Pow2(k: nat): (p: nat)
    ensures p > 0
  {
    if k == 0 then 1 else 2 * Pow2(k - 1)
  }

  /** The bits below and above any place are combined on their own. */
  lemma {:induction false} XorInParts(k: nat, x: nat, y: nat, r: nat, q: nat)
    requires r < Pow2(k) && q < Pow2(k)
    ensures Xor(r, q) < Pow2(k)
    ensures Xor(x * Pow2(k) + r, y * Pow2(k) + q) == Xor(x, y) * Pow2(k) + Xor(r, q)
  {
    hide Xor;
    if k == 0 {
      XorIsZero(r, q);
    } else {
      XorInParts(k - 1, x, y, r / 2, q / 2);
      var half, bit := Pow2(k - 1), if r % 2 == q % 2 then 0 else 1;
      Halve(x, half, r);
      Halve(y, half, q);
      XorHalves(x * (2 * half) + r, y * (2 * half) + q);
      XorHalves(r, q);
      Double(Xor(x, y), half, Xor(r / 2, q / 2), bit);
    }
  }

  lemma Double(z: nat, half: nat, s: nat, bit: nat)
    ensures 2 * (z * half + s) + bit == z * (2 * half) + (2 * s + bit)
  {
  }

  lemma Halve(x: nat, half: nat, r: nat)
    ensures (x * (2 * half) + r) / 2 == x * half + r / 2 && (x * (2 * half) + r) % 2 == r % 2
  {
    assert x * (2 * half) == 2 * (x * half);
  }

  lemma XorHalves(a: nat, b: nat)
    ensures Xor(a, b) == 2 * Xor(a / 2, b / 2) + (if a % 2 == b % 2 then 0 else 1)
  {
  }

  lemma EightBits()
    ensures Pow2(8) == 256
  {
    assert Pow2(4) == 16;
  }

  lemma XorOfBytes(a: Byte, b: Byte)
    ensures Xor(a, b) < 256
  {
    EightBits();
    XorInParts(8, 0, 0, a, b);
  }

  // ----- comparing -----

  /** Whether some byte differs, found without stopping at it */
  method CompareDigest(digestA: Bytes, digestB: Bytes) returns (equal: bool)
    ensures equal <==> digestA == digestB
  {
    var left, right, result := digestB, digestB, 1;
    if |digestA| == |digestB| {
      left, result := digestA, 0;
    }
    ghost var start := result;
    for i := 0 to |right|
      invariant result >= 0 && (result == 0 <==> start == 0 && left[..i] == right[..i])
    {
      XorIsZero(left[i], right[i]);
      OrIsZero(result, Xor(left[i], right[i]));
      assert left[..i + 1] == left[..i] + [left[i]] && right[..i + 1] == right[..i] + [right[i]];
      result := Or(result, Xor(left[i], right[i]));
    }
    assert left[..|right|] == left && right[..|right|] == right;
    equal := result == 0;
  }

  // ----- digests as numbers, by way of hexadecimal digits -----

  type HexDigit = x: int | 0 <= x < 16

  function Hexlify(bs: Bytes): (ds: seq<HexDigit>)
    ensures |ds| == 2 * |bs|
  {
    if bs == [] then [] else Hexlify(bs[..|bs| - 1]) + [bs[|bs| - 1] / 16, bs[|bs| - 1] % 16]
  }

  function Unhexlify(ds: seq<HexDigit>): (bs: Bytes)
    requires |ds| % 2 == 0
    ensures |bs| == |ds| / 2
  {
    if ds == [] then
      []
    else
      var high: int, low: int := ds[|ds| - 2], ds[|ds| - 1];
      Unhexlify(ds[..|ds| - 2]) + [16 * high + low]
  }

  /** `int(s, 16)` */
  function ParseHex(ds: seq<HexDigit>): nat {
    if ds == [] then 0 else 16 * ParseHex(ds[..|ds| - 1]) + ds[|ds| - 1]
  }

  function ShortestHex(v: nat): (ds: seq<HexDigit>)
    ensures ds != []
  {
    if v < 16 then [v] else ShortestHex(v / 16) + [v % 16]
  }

  /** `"%064x" % v`: at least `width` digits */
  function FormatHex(v: nat, width: nat): (ds: seq<HexDigit>)
    ensures |ds| >= width
  {
    var ds := ShortestHex(v);
    seq(if |ds| < width then width - |ds| else 0, _ => 0) + ds
  }

  function FromBytes(value: Bytes): nat {
    ParseHex(Hexlify(value))
  }

  /** Two hexadecimal digits to a byte; a number too large for 32 bytes would come out longer. */
  function ToBytes(v: nat): Option<Bytes> {
    var ds := FormatHex(v, 2 * DIGEST_SIZE);
    if |ds| % 2 == 0 then Some(Unhexlify(ds)) else None
  }

  lemma {:induction false} FromBytesLast(bs: Bytes)
    requires bs != []
    ensures FromBytes(bs) == 256 * FromBytes(bs[..|bs| - 1]) + bs[|bs| - 1]
  {
    var ds := Hexlify(bs);
    var front := ds[..|ds| - 1];
    assert front[..|front| - 1] == Hexlify(bs[..|bs| - 1]);
    assert ParseHex(ds) == 16 * ParseHex(front) + ds[|ds| - 1];
    assert ParseHex(front) == 16 * ParseHex(front[..|front| - 1]) + front[|front| - 1];
    assert front[|front| - 1] == bs[|bs| - 1] / 16 && ds[|ds| - 1] == bs[|bs| - 1] % 16;
  }

  lemma {:induction false} UnhexlifyHexlify(bs: Bytes)
    ensures Unhexlify(Hexlify(bs)) == bs
  {
    if bs != [] {
      UnhexlifyHexlify(bs[..|bs| - 1]);
      var ds := Hexlify(bs);
      assert ds[..|ds| - 2] == Hexlify(bs[..|bs| - 1]);
    }
  }

  /** Printing at the old width gives the old digits, leading zeros and all. */
  lemma {:induction false} FormatParse(ds: seq<HexDigit>)
    requires ds != []
    ensures |ShortestHex(ParseHex(ds))| <= |ds| && FormatHex(ParseHex(ds), |ds|) == ds
  {
    var v, front := ParseHex(ds), ds[..|ds| - 1];
    if front == [] {
      assert ParseHex(ds) == ds[0];
      assert ShortestHex(v) == ds;
    } else {
      FormatParse(front);
      if v < 16 {
        assert ParseHex(front) == 0 && ShortestHex(0) == [0];
        assert forall i :: 0 <= i < |front| ==> front[i] == FormatHex(0, |front|)[i] == 0;
      } else {
        assert v / 16 == ParseHex(front) && v % 16 == ds[|ds| - 1];
        assert ShortestHex(v) == ShortestHex(v / 16) + [v % 16];
      }
      assert FormatHex(v, |ds|) == FormatHex(ParseHex(front), |front|) + [ds[|ds| - 1]];
      assert ds == front + [ds[|ds| - 1]];
    }
  }

  /** `to_bytes` undoes `from_bytes` on digests. */
  lemma ToBytesOfFromBytes(d: Digest)
    ensures ToBytes(FromBytes(d)) == Some(d)
  {
    FormatParse(Hexlify(d));
    UnhexlifyHexlify(d);
  }

  // ----- the derivation -----

  function XorBytes(a: Bytes, b: Bytes): (r: Bytes)
    requires |a| == |b|
    ensures |r| == |a|
  {
    if a == [] then
      []
    else
      var n := |a| - 1;
      XorOfBytes(a[n], b[n]);
      XorBytes(a[..n], b[..n]) + [Xor(a[n], b[n])]
  }

  /** One exclusive or of two numbers is the exclusive or of their bytes. */
  lemma {:induction false} XorOfNumbers(a: Bytes, b: Bytes)
    requires |a| == |b|
    ensures FromBytes(XorBytes(a, b)) == Xor(FromBytes(a), FromBytes(b))
  {
    hide Xor, FromBytes;
    if a != [] {
      var n := |a| - 1;
      FromBytesLast(a);
      FromBytesLast(b);
      FromBytesLast(XorBytes(a, b));
      assert XorBytes(a, b)[..n] == XorBytes(a[..n], b[..n]);
      XorOfNumbers(a[..n], b[..n]);
      EightBits();
      XorInParts(8, FromBytes(a[..n]), FromBytes(b[..n]), a[n], b[n]);
    } else {
      NothingToXor();
    }
  }

  lemma NothingToXor()
    ensures FromBytes([]) == 0 && Xor(0, 0) == 0
  {
  }

  /** `U1`, `U2`, ... of section 2.2 of RFC 5802 */
  function U(mac: Mac, password: Bytes, salt: Bytes, i: nat): Digest
    requires i >= 1
  {
    if i == 1 then mac(password, salt + [0, 0, 0, 1]) else mac(password, U(mac, password, salt, i - 1))
  }

  /** `Hi(str, salt, i)` of section 2.2 of RFC 5802 */
  function Hi(mac: Mac, password: Bytes, salt: Bytes, i: nat): Digest
    requires i >= 1
  {
    if i == 1 then U(mac, password, salt, 1)
    else XorBytes(Hi(mac, password, salt, i - 1), U(mac, password, salt, i))
  }

  /** What is derived for an iteration count: one that is not positive counts as one. */
  function Derived(mac: Mac, password: Bytes, salt: Bytes, iterations: int): Digest {
    Hi(mac, password, salt, if iterations < 1 then 1 else iterations)
  }

  datatype Key = Key(password: Bytes, salt: Bytes, iterations: int)

  class LocalThreadCache {
    var cache: map<Key, Digest>

    constructor ()
      ensures cache == map[]
    {
      cache := map[];
    }

    /** Everything cached is what would be derived again. */
    ghost predicate Valid(mac: Mac)
      reads this
    {
      forall k :: k in cache ==> cache[k] == Derived(mac, k.password, k.salt, k.iterations)
    }

    method Set(key: Key, val: Digest)
      modifies this
      ensures cache == old(cache)[key := val]
    {
      cache := cache[key := val];
    }

    method Get(key: Key) returns (val: Option<Digest>)
      ensures val == if key in cache then Some(cache[key]) else None
    {
      val := if key in cache then Some(cache[key]) else None;
    }
  }

  method Pbkdf2Hmac(mac: Mac, cache: LocalThreadCache, hashName: string, password: Bytes, salt: Bytes, iterations: int)
    returns (derived: Option<Digest>)
    requires cache.Valid(mac)
    modifies cache
    ensures cache.Valid(mac)
    ensures derived == if hashName == "sha256" then Some(Derived(mac, password, salt, iterations)) else None
    ensures derived.None? ==> cache.cache == old(cache.cache)
    ensures derived.Some? ==> cache.cache == old(cache.cache)[Key(password, salt, iterations) := derived.value]
  {
    hide XorBytes, Xor, FromBytes, ToBytes;
    if hashName != "sha256" {
      return None;
    }
    var key := Key(password, salt, iterations);
    derived := cache.Get(key);
    if derived.Some? {
      assert cache.cache[key := derived.value] == cache.cache;
      return;
    }
    var t := mac(password, salt + [0, 0, 0, 1]);
    var u := FromBytes(t);
    ghost var hi: Digest := t;
    var c := 1;
    while c < iterations
      invariant 1 <= c && (c <= iterations || c == 1)
      invariant cache.cache == old(cache.cache)
      invariant t == U(mac, password, salt, c)
      invariant hi == Hi(mac, password, salt, c) && u == FromBytes(hi)
    {
      t := mac(password, t);
      XorOfNumbers(hi, t);
      u := Xor(u, FromBytes(t));
      hi := XorBytes(hi, t);
      c := c + 1;
    }
    ToBytesOfFromBytes(hi);
    derived := ToBytes(u);
    assert derived.value == Derived(mac, key.password, key.salt, key.iterations);
    cache.Set(key, derived.value);
  }
}
