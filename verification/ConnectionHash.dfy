/** The keys of the connection map and the two hashes taken of them: the one that
    places an entry in the map, and the one that a SYN cookie carries. */
module ConnectionHash {
  import opened Xxh3Secret
  import opened Xxh3Short

  /** Identifies one TCP connection by both addresses and both ports. */
  datatype Data = Data(extip: bv32, intip: bv32, extport: bv16, intport: bv16)

  // ----- Fields in memory, least significant byte first -----

  function Bytes16(x: bv16): (s: seq<bv8>)
    ensures |s| == 2
  {
    [(x & 0xFF) as bv8, (x >> 8) as bv8]
  }

  function Bytes32(x: bv32): (s: seq<bv8>)
    ensures |s| == 4
  {
    [Byte(x, 0), Byte(x, 1), Byte(x, 2), Byte(x, 3)]
  }

  /** XXH3_64bits_internal on the lengths that the proxy hashes. */
  function Xxh3(input: seq<bv8>, secret: Secret, seed: bv64): bv64
    requires 1 <= |input| <= 8
  {
    if |input| >= 4 then Len4to8(input, secret, seed) else Len1to3(input, secret, seed)
  }

  /** Four layers over the fields, innermost first, each seeding the next. */
  function NestedHash(secret: Secret, seed: bv64, d: Data): bv64 {
    var h0 := Xxh3(Bytes16(d.intport), secret, seed);
    var h1 := Xxh3(Bytes16(d.extport), secret, h0);
    var h2 := Xxh3(Bytes32(d.intip), secret, h1);
    Xxh3(Bytes32(d.extip), secret, h2)
  }

  /** MyHashFunction: no seed and the built-in secret. */
  function MyHash(d: Data): bv64 { NestedHash(KSecret(), 0, d) }

  /** The 64-bit value behind calc_cookie_hash, before it is cut to 32 bits. */
  function WideCookieHash(cookieSecret: bv64, timestamp: bv8, d: Data): bv64 {
    Xxh3([timestamp], KSecret(), NestedHash(KSecret(), cookieSecret, d))
  }

  function CookieHash(cookieSecret: bv64, timestamp: bv8, d: Data): bv32 {
    LowHalf(WideCookieHash(cookieSecret, timestamp, d))
  }

  /** The two keys disagree in exactly one of their four fields. */
  predicate DifferInOneField(a: Data, b: Data) {
    a != b && (
      || a == b.(extip := a.extip)
      || a == b.(intip := a.intip)
      || a == b.(extport := a.extport)
      || a == b.(intport := a.intport))
  }

  lemma {:induction false} BytesInjective16(x: bv16, y: bv16)
    requires Bytes16(x) == Bytes16(y)
    ensures x == y
  {
    assert Bytes16(x)[0] == Bytes16(y)[0] && Bytes16(x)[1] == Bytes16(y)[1];
  }

  lemma {:induction false} BytesInjective32(x: bv32, y: bv32)
    requires Bytes32(x) == Bytes32(y)
    ensures x == y
  {
    assert forall k | 0 <= k < 4 :: Bytes32(x)[k] == Bytes32(y)[k];
  }

  /** One layer: equal hashes of keys of one length mean the same key for the
      same seed, and the same seed for the same key. */
  lemma {:induction false} LayerInjective(a: seq<bv8>, b: seq<bv8>, secret: Secret, s: bv64, t: bv64)
    requires |a| == |b| && (1 <= |a| <= 2 || |a| == 4)
    requires Xxh3(a, secret, s) == Xxh3(b, secret, t)
    ensures s == t <==> a == b
  {
    hide Len1to3, Len4to8, SeedOf1to3, SeedOf4;
    if s == t {
      if |a| == 4 { Len4Injective(a, b, secret, s); } else { Len1to3Injective(a, b, secret, s); }
    }
    if a == b {
      var h := Xxh3(a, secret, s);
      if |a| == 4 {
        Len4PermutesSeeds(a, secret, s, h);
        Len4PermutesSeeds(a, secret, t, h);
      } else {
        Len1to3PermutesSeeds(a, secret, s, h);
        Len1to3PermutesSeeds(a, secret, t, h);
      }
    }
  }

  /** Exactly one of the seed and the four fields differs. */
  predicate OneApart(s: bv64, t: bv64, a: Data, b: Data) {
    (s == t && DifferInOneField(a, b)) || (s != t && a == b)
  }

  lemma {:induction false} BytesInjective(a: Data, b: Data)
    ensures Bytes32(a.extip) == Bytes32(b.extip) <==> a.extip == b.extip
    ensures Bytes32(a.intip) == Bytes32(b.intip) <==> a.intip == b.intip
    ensures Bytes16(a.extport) == Bytes16(b.extport) <==> a.extport == b.extport
    ensures Bytes16(a.intport) == Bytes16(b.intport) <==> a.intport == b.intport
  {
    hide Bytes16, Bytes32;
    if Bytes32(a.extip) == Bytes32(b.extip) { BytesInjective32(a.extip, b.extip); }
    if Bytes32(a.intip) == Bytes32(b.intip) { BytesInjective32(a.intip, b.intip); }
    if Bytes16(a.extport) == Bytes16(b.extport) { BytesInjective16(a.extport, b.extport); }
    if Bytes16(a.intport) == Bytes16(b.intport) { BytesInjective16(a.intport, b.intport); }
  }

  lemma {:induction false} NestedHashesApart(secret: Secret, s: bv64, t: bv64, a: Data, b: Data)
    requires OneApart(s, t, a, b)
    ensures NestedHash(secret, s, a) != NestedHash(secret, t, b)
  {
    hide Xxh3, Bytes16, Bytes32;
    if NestedHash(secret, s, a) == NestedHash(secret, t, b) {
      var p0, q0 := Xxh3(Bytes16(a.intport), secret, s), Xxh3(Bytes16(b.intport), secret, t);
      var p1, q1 := Xxh3(Bytes16(a.extport), secret, p0), Xxh3(Bytes16(b.extport), secret, q0);
      var p2, q2 := Xxh3(Bytes32(a.intip), secret, p1), Xxh3(Bytes32(b.intip), secret, q1);
      BytesInjective(a, b);
      LayerInjective(Bytes32(a.extip), Bytes32(b.extip), secret, p2, q2);
      if p2 == q2 { LayerInjective(Bytes32(a.intip), Bytes32(b.intip), secret, p1, q1); }
      if p1 == q1 { LayerInjective(Bytes16(a.extport), Bytes16(b.extport), secret, p0, q0); }
      if p0 == q0 { LayerInjective(Bytes16(a.intport), Bytes16(b.intport), secret, s, t); }
    }
  }

  /** Two connections that differ in one address or one port never share a hash. */
  lemma {:induction false} NeighboursNeverCollide(a: Data, b: Data)
    requires DifferInOneField(a, b)
    ensures MyHash(a) != MyHash(b)
  {
    hide NestedHash, KSecret;
    NestedHashesApart(KSecret(), 0, 0, a, b);
  }

  /** Before it is cut to 32 bits, the cookie hash changes whenever exactly one of
      the timestamp, the cookie secret and the four connection fields changes. */
  lemma {:induction false} CookieHashesApart(s: bv64, t: bv64, m: bv8, n: bv8, a: Data, b: Data)
    requires (m == n && OneApart(s, t, a, b)) || (m != n && s == t && a == b)
    ensures WideCookieHash(s, m, a) != WideCookieHash(t, n, b)
  {
    hide Xxh3, NestedHash, KSecret;
    if m == n { NestedHashesApart(KSecret(), s, t, a, b); }
    if WideCookieHash(s, m, a) == WideCookieHash(t, n, b) {
      assert [m] == [n] <==> m == n by { assert [m][0] == m && [n][0] == n; }
      LayerInjective([m], [n], KSecret(), NestedHash(KSecret(), s, a), NestedHash(KSecret(), t, b));
    }
  }

  /** Undoes one layer: the seed under which the key hashes to h. */
  function SeedOf(input: seq<bv8>, secret: Secret, h: bv64): bv64
    requires 1 <= |input| <= 4
  {
    if |input| == 4 then SeedOf4(input, secret, h) else SeedOf1to3(input, secret, h)
  }

  lemma {:induction false} LayerPermutesSeeds(input: seq<bv8>, secret: Secret, seed: bv64, h: bv64)
    requires 1 <= |input| <= 4
    ensures Xxh3(input, secret, seed) == h <==> seed == SeedOf(input, secret, h)
  {
    hide Len1to3, Len4to8, SeedOf1to3, SeedOf4;
    if |input| == 4 {
      Len4PermutesSeeds(input, secret, seed, h);
    } else {
      Len1to3PermutesSeeds(input, secret, seed, h);
    }
  }

  function CookieSecretOf(timestamp: bv8, d: Data, h: bv64): bv64 {
    var h3 := SeedOf([timestamp], KSecret(), h);
    var h2 := SeedOf(Bytes32(d.extip), KSecret(), h3);
    var h1 := SeedOf(Bytes32(d.intip), KSecret(), h2);
    SeedOf(Bytes16(d.intport), KSecret(), SeedOf(Bytes16(d.extport), KSecret(), h1))
  }

  /** For one timestamp and connection the cookie hash permutes the cookie secrets:
      every 64-bit value is the hash under exactly one secret. */
  lemma {:induction false} CookieHashPermutesSecrets(timestamp: bv8, d: Data, cookieSecret: bv64, h: bv64)
    ensures WideCookieHash(cookieSecret, timestamp, d) == h
            <==> cookieSecret == CookieSecretOf(timestamp, d, h)
  {
    hide Xxh3, Bytes16, Bytes32, SeedOf, KSecret;
    var p0 := Xxh3(Bytes16(d.intport), KSecret(), cookieSecret);
    var p1 := Xxh3(Bytes16(d.extport), KSecret(), p0);
    var p2 := Xxh3(Bytes32(d.intip), KSecret(), p1);
    var p3 := Xxh3(Bytes32(d.extip), KSecret(), p2);
    var h3 := SeedOf([timestamp], KSecret(), h);
    var h2 := SeedOf(Bytes32(d.extip), KSecret(), h3);
    var h1 := SeedOf(Bytes32(d.intip), KSecret(), h2);
    LayerPermutesSeeds([timestamp], KSecret(), p3, h);
    LayerPermutesSeeds(Bytes32(d.extip), KSecret(), p2, h3);
    LayerPermutesSeeds(Bytes32(d.intip), KSecret(), p1, h2);
    LayerPermutesSeeds(Bytes16(d.extport), KSecret(), p0, h1);
    LayerPermutesSeeds(Bytes16(d.intport), KSecret(), cookieSecret, SeedOf(Bytes16(d.extport), KSecret(), h1));
  }

  /** What the cut to 32 bits leaves of that: the secrets that give one cookie hash are
      numbered, one to one, by the half that is cut off, so each of the 2^32 hashes
      occurs under exactly 2^32 secrets. */
  lemma {:induction false} CookieHashBalanced(timestamp: bv8, d: Data, cookieSecret: bv64, c: bv32)
    ensures CookieHash(cookieSecret, timestamp, d) == c
            <==> exists high: bv32 :: cookieSecret == CookieSecretOf(timestamp, d, Join(c, high))
    ensures forall high: bv32, other: bv32 | high != other ::
      CookieSecretOf(timestamp, d, Join(c, high)) != CookieSecretOf(timestamp, d, Join(c, other))
  {
    var wide := WideCookieHash(cookieSecret, timestamp, d);
    CookieHashPermutesSecrets(timestamp, d, cookieSecret, wide);
    JoinHalves(wide);
    hide WideCookieHash, CookieSecretOf, Join, LowHalf, HighHalf;
    forall high: bv32 | cookieSecret == CookieSecretOf(timestamp, d, Join(c, high))
      ensures CookieHash(cookieSecret, timestamp, d) == c
    {
      CookieHashPermutesSecrets(timestamp, d, cookieSecret, Join(c, high));
      JoinKeepsLow(c, high);
    }
    forall high: bv32, other: bv32 | high != other
      ensures CookieSecretOf(timestamp, d, Join(c, high)) != CookieSecretOf(timestamp, d, Join(c, other))
    {
      var s := CookieSecretOf(timestamp, d, Join(c, high));
      CookieHashPermutesSecrets(timestamp, d, s, Join(c, high));
      CookieHashPermutesSecrets(timestamp, d, s, Join(c, other));
      JoinKeepsHalves(c, high);
      JoinKeepsHalves(c, other);
    }
  }

  /** So the cut hash does not tell neighbouring inputs apart: these two secrets differ,
      and the connection gets the same cookie hash under both. */
  lemma {:induction false} CutHashesCollide(timestamp: bv8, d: Data, c: bv32)
    ensures var s, t := CookieSecretOf(timestamp, d, Join(c, 0)), CookieSecretOf(timestamp, d, Join(c, 1));
      s != t && CookieHash(s, timestamp, d) == CookieHash(t, timestamp, d) == c
  {
    hide CookieHash, CookieSecretOf, Join;
    CookieHashBalanced(timestamp, d, CookieSecretOf(timestamp, d, Join(c, 0)), c);
    CookieHashBalanced(timestamp, d, CookieSecretOf(timestamp, d, Join(c, 1)), c);
  }
}
