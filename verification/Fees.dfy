/** The 80-byte sliding window of ten big-endian words. */
module Window {
  import opened Bytes

  const WINDOW_SIZE := 10

  type WindowBytes = b: Bytes | |b| == 8 * WINDOW_SIZE witness seq(80, i => 0)

  function Word(b: Bytes, k: nat): (w: uint64)
    requires 8 * k + 8 <= |b|
  {
    BigEndianBound(b[8 * k..8 * k + 8]);
    Pow256Of8();
    BigEndian(b[8 * k..8 * k + 8])
  }

  /** A byte string as the words it is made of. */
  function Words(b: Bytes): (w: seq<uint64>)
    requires |b| % 8 == 0
    ensures |w| == |b| / 8
  {
    seq(|b| / 8, k requires 0 <= k < |b| / 8 => Word(b, k))
  }

  /** Words as the byte string that they make. */
  function Packed(w: seq<uint64>): (b: Bytes)
    ensures |b| == 8 * |w|
  {
    if w == [] then [] else Packed(w[..|w| - 1]) + PutBigEndian(w[|w| - 1], 8)
  }

  lemma WordsPrefix(b: Bytes, n: nat)
    requires |b| == 8 * n + 8
    ensures |b[..8 * n]| % 8 == 0 && Words(b) == Words(b[..8 * n]) + [Word(b, n)]
  {
    var most := b[..8 * n];
    forall k | 0 <= k < n
      ensures Word(most, k) == Word(b, k)
    {
      assert most[8 * k..8 * k + 8] == b[8 * k..8 * k + 8];
    }
  }

  /** Packing the words of a byte string gives it back. */
  lemma {:induction false} PackedWords(b: Bytes)
    requires |b| % 8 == 0
    ensures Packed(Words(b)) == b
    decreases |b|
  {
    if b != [] {
      var n := |b| / 8 - 1;
      WordsPrefix(b, n);
      PackedWords(b[..8 * n]);
      hide Words;
      var (w, last) := (Words(b[..8 * n]), Word(b, n));
      assert (w + [last])[..|w|] == w;
      EncodeDecode(b[8 * n..8 * n + 8]);
      assert b == b[..8 * n] + b[8 * n..8 * n + 8];
    }
  }

  function PutWord(b: Bytes, k: nat, v: uint64): (r: Bytes)
    requires 8 * k + 8 <= |b|
    ensures |r| == |b|
  {
    b[..8 * k] + PutBigEndian(v, 8) + b[8 * k + 8..]
  }

  /** Writing one word leaves the others as they are. */
  lemma PutWordSets(b: Bytes, k: nat, v: uint64)
    requires |b| % 8 == 0 && 8 * k + 8 <= |b|
    ensures Words(PutWord(b, k, v)) == Words(b)[k := v]
  {
    var r := PutWord(b, k, v);
    forall j | 0 <= j < |b| / 8
      ensures Word(r, j) == Words(b)[k := v][j]
    {
      if j == k {
        assert r[8 * j..8 * j + 8] == PutBigEndian(v, 8);
        Pow256Of8();
        DecodeEncode(v, 8);
      } else {
        assert r[8 * j..8 * j + 8] == b[8 * j..8 * j + 8];
      }
    }
  }

  lemma MiddleSlice(a: Bytes, w: Bytes, c: Bytes, i: nat, n: nat)
    requires i + n <= |w|
    ensures (a + w + c)[|a| + i..|a| + i + n] == w[i..i + n]
  {
  }

  lemma LeftSlice(a: Bytes, c: Bytes, i: nat, n: nat)
    requires i + n <= |a|
    ensures (a + c)[i..i + n] == a[i..i + n]
  {
  }

  lemma RightSlice(a: Bytes, c: Bytes, i: nat, n: nat)
    requires i + n <= |c|
    ensures (a + c)[|a| + i..|a| + i + n] == c[i..i + n]
  {
  }

  lemma TailSlice(w: Bytes, a: nat, i: nat, n: nat)
    requires a + i + n <= |w|
    ensures w[a..][i..i + n] == w[a + i..a + i + n]
  {
  }

  function Zeros(n: nat): (b: Bytes)
    ensures |b| == n
  {
    seq(n, i => 0)
  }

  lemma {:induction false} ZeroWord(n: nat)
    ensures BigEndian(Zeros(n)) == 0
  {
    if n > 0 {
      ZeroWord(n - 1);
      assert Zeros(n)[..n - 1] == Zeros(n - 1);
    }
  }

  function Roll(w: WindowBytes, roll: uint64): (r: WindowBytes) {
    if roll > WINDOW_SIZE then Zeros(80) else w[8 * roll..] + Zeros(8 * roll)
  }

  /** Rolling shifts the words out on the left and zero words in on the right. */
  lemma RollShifts(w: WindowBytes, roll: uint64, j: nat)
    requires j < WINDOW_SIZE
    ensures Words(Roll(w, roll))[j] == if j + roll < WINDOW_SIZE then Words(w)[j + roll] else 0
  {
    var r := Roll(w, roll);
    ZeroWord(8);
    if j + roll < WINDOW_SIZE {
      LeftSlice(w[8 * roll..], Zeros(8 * roll), 8 * j, 8);
      TailSlice(w, 8 * roll, 8 * j, 8);
    } else {
      assert r[8 * j..8 * j + 8] == Zeros(8);
    }
  }

  /** What a word can hold of a total. */
  function Saturated(n: nat): (r: uint64)
    ensures r <= n
  {
    if n > MAX_UINT64 then MAX_UINT64 else n
  }

  function Total(w: seq<uint64>): nat {
    if w == [] then 0 else Total(w[..|w| - 1]) + w[|w| - 1]
  }

  lemma {:induction false} TotalGrows(w: seq<uint64>, n: nat)
    requires n <= |w|
    ensures Total(w[..n]) <= Total(w)
    decreases |w|
  {
    if n < |w| {
      TotalGrows(w[..|w| - 1], n);
      assert w[..|w| - 1][..n] == w[..n];
    } else {
      assert w[..n] == w;
    }
  }

  method Sum(w: WindowBytes) returns (sum: uint64)
    ensures sum == Saturated(Total(Words(w)))
  {
    sum := 0;
    for i := 0 to WINDOW_SIZE
      invariant sum == Total(Words(w)[..i])
    {
      assert Words(w)[..i + 1][..i] == Words(w)[..i];
      TotalGrows(Words(w), i + 1);
      if sum + Word(w, i) > MAX_UINT64 {
        return MAX_UINT64;
      }
      sum := sum + Word(w, i);
    }
    assert Words(w)[..WINDOW_SIZE] == Words(w);
  }

  method Copy(a: array<Byte>, start: nat, b: Bytes)
    requires start + |b| <= a.Length
    modifies a
    ensures a[..] == old(a[..])[..start] + b + old(a[..])[start + |b|..]
  {
    for i := 0 to |b|
      invariant forall j | 0 <= j < i :: a[start + j] == b[j]
      invariant forall j | 0 <= j < a.Length && (j < start || j >= start + i) :: a[j] == old(a[j])
    {
      a[start + i] := b[i];
    }
  }

  /** Writes a word into a buffer, most significant byte first. */
  method PutUint64(a: array<Byte>, k: nat, v: uint64)
    requires 8 * k + 8 <= a.Length
    modifies a
    ensures a[..] == PutWord(old(a[..]), k, v)
  {
    hide PutBigEndian;
    Copy(a, 8 * k, PutBigEndian(v, 8));
  }

  /** Adds units to one word of the window, in place. */
  method Update(a: array<Byte>, k: nat, units: uint64)
    requires a.Length == 8 * WINDOW_SIZE && k < WINDOW_SIZE
    modifies a
    ensures Words(a[..]) == Words(old(a[..]))[k := Saturated(Words(old(a[..]))[k] + units)]
  {
    var total := Word(a[..], k) + units;
    if total > MAX_UINT64 {
      total := MAX_UINT64;
    }
    PutWordSets(a[..], k, total);
    PutUint64(a, k, total);
  }
}
