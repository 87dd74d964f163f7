/** Byte strings, big-endian words and the chunk suffix that every state key carries. */
module Bytes {

  type Byte = x: int | 0 <= x < 256
  type Bytes = seq<Byte>

  const MAX_UINT16 := 0xFFFF
  const MAX_UINT64 := 0xFFFF_FFFF_FFFF_FFFF

  type uint64 = x: int | 0 <= x <= MAX_UINT64

  datatype Maybe<+T> = Nothing | Some(value: T)

  /** The unsigned value of a big-endian byte string. */
  function BigEndian(b: Bytes): (n: nat) {
    if b == [] then 0 else 256 * BigEndian(b[..|b| - 1]) + b[|b| - 1]
  }

  /** The `width` low-order bytes of `n`, most significant first. */
  function PutBigEndian(n: nat, width: nat): (b: Bytes)
    ensures |b| == width
  {
    if width == 0 then [] else PutBigEndian(n / 256, width - 1) + [n % 256]
  }

  function Pow256(width: nat): (p: nat)
    ensures p >= 1
  {
    if width == 0 then 1 else 256 * Pow256(width - 1)
  }

  lemma {:induction false} BigEndianBound(b: Bytes)
    ensures BigEndian(b) < Pow256(|b|)
  {
    if b != [] {
      BigEndianBound(b[..|b| - 1]);
    }
  }

  /** Writing a word and reading it back gives the word, if it fits. */
  lemma {:induction false} DecodeEncode(n: nat, width: nat)
    requires n < Pow256(width)
    ensures BigEndian(PutBigEndian(n, width)) == n
  {
    if width > 0 {
      DecodeEncode(n / 256, width - 1);
      var b := PutBigEndian(n, width);
      assert b[..|b| - 1] == PutBigEndian(n / 256, width - 1);
    }
  }

  /** Every byte string is the encoding of the word it denotes. */
  lemma {:induction false} EncodeDecode(b: Bytes)
    ensures PutBigEndian(BigEndian(b), |b|) == b
  {
    if b != [] {
      EncodeDecode(b[..|b| - 1]);
    }
  }

  lemma Pow256Of8()
    ensures Pow256(8) == MAX_UINT64 + 1
  {
    assert Pow256(4) == 0x1_0000_0000;
  }
}

/** State keys with permissions, and the scope test of a view. */
module StateKeys {
  import opened Bytes

  type Key = Bytes
  type Value = Bytes

  type Permissions = bv8

  const NONE: Permissions := 0
  const READ: Permissions := 1
  const ALLOCATE: Permissions := 3
  const WRITE: Permissions := 5

  const CHUNK_SIZE := 64

  type Keys = map<Key, Permissions>

  /** `p` holds every bit of `require`. */
  predicate Has(p: Permissions, require: Permissions) {
    require & !p == 0
  }

  lemma HasBits(p: Permissions)
    ensures Has(p, READ) <==> p & 1 == 1
    ensures Has(p, ALLOCATE) <==> p & 3 == 3
    ensures Has(p, WRITE) <==> p & 5 == 5
  {
  }

  /** The permission of a key in a key set; an absent key holds none. */
  function PermissionOf(keys: Keys, k: Key): (p: Permissions) {
    if k in keys then keys[k] else NONE
  }

  datatype Scope = Limited(keys: Keys) | Complete {
    predicate Grants(k: Key, require: Permissions) {
      Complete? || Has(PermissionOf(keys, k), require)
    }
  }

  /** A value fits a key exactly if it is empty or shorter than the chunks that the key's last two bytes reserve. */
  lemma FitsExactly(k: Key, v: Value)
    ensures VerifyValue(k, v) <==> |k| >= 2 && (v == [] || |v| < 64 * BigEndian(k[|k| - 2..]))
  {
    if |k| >= 2 {
      BigEndianBound(k[|k| - 2..]);
      assert Pow256(2) == 65536;
    }
  }

  /** `Keys.Add`: a malformed key is refused, otherwise the permissions are unioned. */
  function Add(keys: Keys, k: Key, p: Permissions): (r: Maybe<Keys>)
  {
    if |k| < 2 then Nothing else Some(keys[k := PermissionOf(keys, k) | p])
  }

  /** Adding never takes a permission away, and grants exactly what was asked on top of what was held. */
  lemma AddUnions(keys: Keys, k: Key, p: Permissions, k': Key, q: Permissions)
    requires Add(keys, k, p).Some?
    ensures Has(PermissionOf(keys, k'), q) ==> Has(PermissionOf(Add(keys, k, p).value, k'), q)
    ensures Has(PermissionOf(Add(keys, k, p).value, k), p)
    ensures PermissionOf(Add(keys, k, p).value, k) == PermissionOf(keys, k) | p
    ensures k' != k ==> PermissionOf(Add(keys, k, p).value, k') == PermissionOf(keys, k')
  {
    UnionGrants(PermissionOf(keys, k), p, q);
  }

  lemma UnionGrants(held: Permissions, p: Permissions, q: Permissions)
    ensures Has(held | p, p)
    ensures Has(held, q) ==> Has(held | p, q)
  {
    assert p & !(held | p) == 0;
    assert q & !held == 0 ==> q & !(held | p) == 0;
  }

  /** The number of chunks a key reserves, from its two-byte suffix. */
  function MaxChunks(k: Key): (r: Maybe<nat>) {
    if |k| < 2 then Nothing else Some(BigEndian(k[|k| - 2..]))
  }

  function NumChunks(v: Value): (r: Maybe<nat>) {
    if |v| == 0 then Some(0)
    else
      var raw := |v| / CHUNK_SIZE + 1;
      if raw > MAX_UINT16 then Nothing else Some(raw)
  }

  predicate VerifyValue(k: Key, v: Value) {
    NumChunks(v).Some? && MaxChunks(k).Some? && NumChunks(v).value <= MaxChunks(k).value
  }

  /** Whoever may write may read, and does not hold exactly Read: the executor's exclusive mode. */
  lemma WriterIsExclusive(p: Permissions)
    ensures Has(p, WRITE) ==> Has(p, READ) && p != READ
    ensures Has(p, ALLOCATE) ==> Has(p, READ) && p != READ
    ensures !Has(NONE, READ)
  {
    assert 5 & !p == 0 ==> 1 & !p == 0;
    assert 3 & !p == 0 ==> 1 & !p == 0;
  }

  /** As many empty keys as there are keys, then every key once, in some order. */
  ghost predicate Lists(ks: seq<Key>, keys: Keys) {
    && |ks| == 2 * |keys|
    && (forall i | 0 <= i < |keys| :: ks[i] == [])
    && multiset(ks[|keys|..]) == multiset(keys.Keys)
  }

  /** The keys without their permissions. The slice is made at full length and then appended to. */
  method WithoutPermissions(keys: Keys) returns (ks: seq<Key>)
    ensures Lists(ks, keys)
  {
    ks := seq(|keys|, i => []);
    var rest := keys.Keys;
    while rest != {}
      invariant rest <= keys.Keys && |keys| <= |ks| && |ks| + |rest| == 2 * |keys|
      invariant forall i | 0 <= i < |keys| :: ks[i] == []
      invariant multiset(ks[|keys|..]) + multiset(rest) == multiset(keys.Keys)
      decreases rest
    {
      var k :| k in rest;
      assert (ks + [k])[|keys|..] == ks[|keys|..] + [k];
      assert multiset(rest) == multiset(rest - {k}) + multiset{k};
      ks := ks + [k];
      rest := rest - {k};
    }
  }

  lemma ListsMembers(ks: seq<Key>, keys: Keys, k: Key)
    requires Lists(ks, keys)
    ensures k in keys ==> k in ks
    ensures k in ks ==> k in keys || k == []
  {
    var listed := ks[|keys|..];
    assert ks == ks[..|keys|] + listed;
    assert k in keys <==> k in multiset(listed);
    assert k in ks ==> k in ks[..|keys|] || k in listed;
  }
}
