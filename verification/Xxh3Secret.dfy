/** The secrets that key XXH3: 136 bytes or more, among them the built-in one. */
module Xxh3Secret {
  type Secret = s: seq<bv8> | |s| >= 136 witness seq(136, _ => 0)

  /** The length of the built-in secret and of those derived from a seed. */
  type DefaultSecret = s: seq<bv8> | |s| == 192 witness seq(192, _ => 0)

  /** XXH3_kSecret, eight bytes to a word, first byte most significant. */
  const K_SECRET_WORDS: seq<bv64> := [
    0xb8fe6c3923a44bbe, 0x7c01812cf721ad1c, 0xded46de9839097db, 0x7240a4a4b7b3671f,
    0xcb79e64eccc0e578, 0x825ad07dccff7221, 0xb8084674f743248e, 0xe03590e6813a264c,
    0x3c2852bb91c300cb, 0x88d0658b1b532ea3, 0x71644897a20df94e, 0x3819ef46a9deacd8,
    0xa8fa763fe39c343f, 0xf9dcbbc7c70b4f1d, 0x8a51e04bcdb45931, 0xc89f7ec9d9787364,
    0xeac5ac8334d3ebc3, 0xc581a0fffa1363eb, 0x170ddd51b7f0da49, 0xd316552629d4689e,
    0x2b16be587d47a1fc, 0x8ff8b8d17ad031ce, 0x45cb3a8f95160428, 0xafd7fbcabb4b407e
  ]

  function WordByte(w: bv64, k: nat): bv8
    requires k < 8
  {
    match k
    case 0 => (w & 0xFF) as bv8
    case 1 => ((w >> 8) & 0xFF) as bv8
    case 2 => ((w >> 16) & 0xFF) as bv8
    case 3 => ((w >> 24) & 0xFF) as bv8
    case 4 => ((w >> 32) & 0xFF) as bv8
    case 5 => ((w >> 40) & 0xFF) as bv8
    case 6 => ((w >> 48) & 0xFF) as bv8
    case _ => (w >> 56) as bv8
  }

  function SecretByte(k: nat): bv8 {
    if k < 192 then WordByte(K_SECRET_WORDS[k / 8], 7 - k % 8) else 0
  }

  function KSecret(): DefaultSecret {
    var bytes: seq<bv8> := seq(192, k requires 0 <= k => SecretByte(k));
    bytes
  }

  /** The bytes of a word as the table writes them down, most significant first. */
  function Written(w: bv64): (s: seq<bv8>)
    ensures |s| == 8
  {
    [(w >> 56) as bv8, ((w >> 48) & 0xFF) as bv8, ((w >> 40) & 0xFF) as bv8, ((w >> 32) & 0xFF) as bv8,
     ((w >> 24) & 0xFF) as bv8, ((w >> 16) & 0xFF) as bv8, ((w >> 8) & 0xFF) as bv8, (w & 0xFF) as bv8]
  }

  lemma {:induction false} WrittenBytes(w: bv64)
    ensures var s := Written(w);
      && WordByte(w, 7) == s[0] && WordByte(w, 6) == s[1] && WordByte(w, 5) == s[2] && WordByte(w, 4) == s[3]
      && WordByte(w, 3) == s[4] && WordByte(w, 2) == s[5] && WordByte(w, 1) == s[6] && WordByte(w, 0) == s[7]
  {}

  lemma {:induction false} Position(n: nat, j: nat)
    requires j < 8
    ensures (8 * n + j) / 8 == n && (8 * n + j) % 8 == j
  {}

  lemma {:induction false} SecretByteAt(k: nat)
    requires k < 192
    ensures KSecret()[k] == SecretByte(k)
  {
    hide SecretByte;
  }

  lemma {:induction false} SecretByteOf(n: nat, j: nat)
    requires n < 24 && j < 8
    ensures KSecret()[8 * n + j] == WordByte(K_SECRET_WORDS[n], 7 - j)
  {
    hide WordByte, KSecret;
    Position(n, j);
    SecretByteAt(8 * n + j);
  }

  /** The built-in secret is the table, in the order in which it is written. */
  lemma {:induction false} SecretIsTable(n: nat)
    requires n < 24
    ensures KSecret()[8 * n..8 * n + 8] == Written(K_SECRET_WORDS[n])
  {
    hide WordByte, KSecret;
    WrittenBytes(K_SECRET_WORDS[n]);
    SecretByteOf(n, 0); SecretByteOf(n, 1); SecretByteOf(n, 2); SecretByteOf(n, 3);
    SecretByteOf(n, 4); SecretByteOf(n, 5); SecretByteOf(n, 6); SecretByteOf(n, 7);
    hide Written, K_SECRET_WORDS;
  }
}
