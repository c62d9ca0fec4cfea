/** Fingerprint v1: how a file is cut into parts, and the bytes that are hashed for it. */
module Fingerprint {
  import opened Results

  type Byte = b: int | 0 <= b < 256
  type Bytes = seq<Byte>

  const ZERO_DIGEST: Bytes := seq(32, _ => 0)

  /** What SHA-256 returns; the hash itself is an arbitrary function of this type. */
  type Digest = d: Bytes | |d| == 32 witness ZERO_DIGEST

  /** The hash tells the two inputs apart. */
  predicate NoCollision(sha: Bytes -> Digest, x: Bytes, y: Bytes) {
    sha(x) == sha(y) ==> x == y
  }

  // ----- part arithmetic

  datatype PartError = PartSizeNotPositive | PartOutside(n: int, total: int)

  /** Python's `//` for a positive divisor. */
  function FloorDiv(a: int, b: int): (q: int)
    requires b > 0
    ensures b * q <= a < b * q + b
  {
    a / b
  }

  /** `max(1, ceil(size / partSize))`. */
  function Parts(size: int, partSize: int): (n: int)
    requires partSize > 0
    ensures n >= 1
    ensures size <= partSize * n
    ensures n > 1 ==> partSize * (n - 1) < size
  {
    var ceil := -FloorDiv(-size, partSize);
    if ceil < 1 then 1 else ceil
  }

  function TotalPartsFor(size: int, partSize: int): (r: Result<int, PartError>)
    ensures r.Err? <==> partSize <= 0
    ensures r.Ok? ==> r.value >= 1 && size <= partSize * r.value && (r.value > 1 ==> partSize * (r.value - 1) < size)
    ensures r.Ok? ==> r.value == Parts(size, partSize)
  {
    if partSize <= 0 then Err(PartSizeNotPositive) else Ok(Parts(size, partSize))
  }

  lemma {:induction false} MulMonotone(p: int, a: int, b: int)
    requires p > 0 && a <= b
    ensures p * a <= p * b
  {
  }

  lemma {:induction false} MulBetween(p: int, k: int)
    requires p > 0 && -p < p * k < p
    ensures k == 0
  {
    if k >= 1 { MulMonotone(p, 1, k); }
    if k <= -1 { MulMonotone(p, k, -1); }
  }

  lemma {:induction false} Distribute(p: int, q: int, f: int)
    ensures p * (q + f) == p * q + p * f
  {
  }

  /** An upload session freezes `max(1, (size + partSize - 1) // partSize)` parts: the same number. */
  lemma {:induction false} SessionFreezesTheSameCount(size: int, partSize: int)
    requires partSize > 0
    ensures var n := FloorDiv(size + partSize - 1, partSize); (if n < 1 then 1 else n) == Parts(size, partSize)
  {
    var q, f := FloorDiv(size + partSize - 1, partSize), FloorDiv(-size, partSize);
    Distribute(partSize, q, f);
    MulBetween(partSize, q + f);
  }

  /** Byte length of the 1-based part `n`. */
  function PartSize(n: int, size: int, partSize: int): int {
    (if n * partSize < size then n * partSize else size) - (n - 1) * partSize
  }

  lemma {:induction false} PartEdges(n: int, t: int, p: int)
    requires p > 0 && 1 <= n <= t
    ensures n * p == (n - 1) * p + p && 0 <= (n - 1) * p <= p * (t - 1)
    ensures n < t ==> n * p <= p * (t - 1)
    ensures n == t ==> n * p == p * t
  {
    MulMonotone(p, 0, n - 1);
    MulMonotone(p, n - 1, t - 1);
    if n < t { MulMonotone(p, n, t - 1); }
  }

  lemma {:induction false} PartBounds(n: int, size: int, partSize: int)
    requires partSize > 0 && 1 <= n <= Parts(size, partSize)
    ensures size >= 0 ==> 0 <= PartSize(n, size, partSize) <= partSize
    ensures n < Parts(size, partSize) ==> PartSize(n, size, partSize) == partSize && n * partSize <= size
    ensures size >= 0 ==> 0 <= (n - 1) * partSize <= size
    ensures n == Parts(size, partSize) ==> size <= n * partSize
    ensures n * partSize == (n - 1) * partSize + partSize
  {
    var t := Parts(size, partSize);
    PartEdges(n, t, partSize);
  }

  function ExpectedPartSize(n: int, size: int, partSize: int): (r: Result<int, PartError>)
    ensures r.Ok? <==> partSize > 0 && 1 <= n <= Parts(size, partSize)
    ensures r.Ok? && size >= 0 ==> 0 <= r.value <= partSize
    ensures r.Ok? && n < Parts(size, partSize) ==> r.value == partSize
  {
    var total := TotalPartsFor(size, partSize);
    if total.Err? then Err(total.error)
    else if n < 1 || n > total.value then Err(PartOutside(n, total.value))
    else
      PartBounds(n, size, partSize);
      Ok(PartSize(n, size, partSize))
  }

  /** The bytes of part `n`: `data[(n-1)*partSize : n*partSize]`, cut at the end of the data. */
  function Slice(data: Bytes, n: int, partSize: int): (r: Bytes)
    requires partSize > 0 && 1 <= n <= Parts(|data|, partSize)
    ensures |r| == PartSize(n, |data|, partSize)
  {
    PartBounds(n, |data|, partSize);
    data[(n - 1) * partSize..(n - 1) * partSize + PartSize(n, |data|, partSize)]
  }

  /** Parts `1..n` one after the other. */
  function PartsJoined(parts: int -> Bytes, n: nat): Bytes {
    if n == 0 then [] else PartsJoined(parts, n - 1) + parts(n)
  }

  function Sum(sizes: int -> int, n: nat): int {
    if n == 0 then 0 else Sum(sizes, n - 1) + sizes(n)
  }

  /** The expected part sizes add up to the file size. */
  lemma {:induction false} PartSizesAddUp(size: nat, partSize: int, n: nat)
    requires partSize > 0 && n <= Parts(size, partSize)
    ensures Sum(m => PartSize(m, size, partSize), n) == if n * partSize < size then n * partSize else size
  {
    if n > 0 {
      PartSizesAddUp(size, partSize, n - 1);
      PartBounds(n, size, partSize);
    }
  }

  /** How much of the data the first `n` parts cover. */
  function Covered(size: int, n: int, partSize: int): int {
    if n * partSize < size then n * partSize else size
  }

  lemma {:induction false} SliceExtends(data: Bytes, partSize: int, n: nat)
    requires partSize > 0 && 1 <= n <= Parts(|data|, partSize)
    ensures 0 <= Covered(|data|, n - 1, partSize) <= |data| && 0 <= Covered(|data|, n, partSize) <= |data|
    ensures data[..Covered(|data|, n - 1, partSize)] + Slice(data, n, partSize) == data[..Covered(|data|, n, partSize)]
  {
    PartBounds(n, |data|, partSize);
    var lo, hi := (n - 1) * partSize, Covered(|data|, n, partSize);
    assert Slice(data, n, partSize) == data[lo..hi];
  }

  /** Cutting a file into parts and joining them gives the file back. */
  lemma {:induction false} SlicesJoin(data: Bytes, partSize: int, n: nat, parts: int -> Bytes)
    requires partSize > 0 && n <= Parts(|data|, partSize)
    requires forall m :: 1 <= m <= n ==> parts(m) == Slice(data, m, partSize)
    ensures 0 <= Covered(|data|, n, partSize) <= |data|
    ensures PartsJoined(parts, n) == data[..Covered(|data|, n, partSize)]
  {
    if n > 0 {
      SlicesJoin(data, partSize, n - 1, parts);
      SliceExtends(data, partSize, n);
    }
  }

  /** All the parts together are the whole file. */
  lemma {:induction false} AllSlicesJoin(data: Bytes, partSize: int, parts: int -> Bytes)
    requires partSize > 0 && forall m :: 1 <= m <= Parts(|data|, partSize) ==> parts(m) == Slice(data, m, partSize)
    ensures PartsJoined(parts, Parts(|data|, partSize)) == data
  {
    SlicesJoin(data, partSize, Parts(|data|, partSize), parts);
    PartBounds(Parts(|data|, partSize), |data|, partSize);
  }

  // ----- what is hashed

  /** `stapel-upload-v1` and a newline. */
  const PREFIX: Bytes := [115, 116, 97, 112, 101, 108, 45, 117, 112, 108, 111, 97, 100, 45, 118, 49, 10]

  const NEWLINE: Byte := 10

  /** The number a run of digits spells. */
  function Value(digits: Bytes): int {
    if digits == [] then 0 else Value(digits[..|digits| - 1]) * 10 + digits[|digits| - 1] - 48
  }

  lemma {:induction false} ValueSnoc(digits: Bytes, d: Byte)
    ensures Value(digits + [d]) == Value(digits) * 10 + d - 48
  {
    assert (digits + [d])[..|digits + [d]| - 1] == digits;
  }

  function Decimal(n: nat): (r: Bytes)
    ensures NEWLINE !in r && r != [] && forall b :: b in r ==> 48 <= b < 58
    ensures Value(r) == n
  {
    if n < 10 then [48 + n]
    else
      ValueSnoc(Decimal(n / 10), 48 + n % 10);
      Decimal(n / 10) + [48 + n % 10]
  }

  function Concatenated(digests: seq<Digest>): (r: Bytes)
    ensures |r| == 32 * |digests|
  {
    if digests == [] then [] else digests[0] + Concatenated(digests[1..])
  }

  function Preimage(size: nat, partSize: nat, digests: seq<Digest>): Bytes {
    PREFIX + (Decimal(size) + ([NEWLINE] + (Decimal(partSize) + ([NEWLINE] + Concatenated(digests)))))
  }

  function Ascii(text: string): Bytes {
    seq(|text|, i requires 0 <= i < |text| => text[i] as int % 256)
  }

  /** The header of version 1, for 12 bytes in parts of 5. */
  lemma {:induction false} PreimageExample(digest: Digest)
    ensures Preimage(12, 5, [digest]) == Ascii("stapel-upload-v1\n12\n5\n") + digest
  {
    assert Decimal(12) == [49, 50] && Decimal(5) == [53];
    assert Concatenated([digest]) == digest + Concatenated([digest][1..]) == digest;
  }

  lemma {:induction false} SplitAtNewline(x: Bytes, y: Bytes, x': Bytes, y': Bytes)
    requires NEWLINE !in x && NEWLINE !in x' && x + ([NEWLINE] + y) == x' + ([NEWLINE] + y')
    ensures x == x' && y == y'
  {
    var s := x + ([NEWLINE] + y);
    assert s[|x|] == NEWLINE && s[|x'|] == NEWLINE;
    assert |x| == |x'|;
    assert x == s[..|x|] && x' == s[..|x'|];
    assert y == s[|x| + 1..] && y' == s[|x'| + 1..];
  }

  lemma {:induction false} ConcatenatedInjective(a: seq<Digest>, b: seq<Digest>)
    requires Concatenated(a) == Concatenated(b)
    ensures a == b
  {
    assert |a| == |b|;
    if a != [] {
      assert a[0] == Concatenated(a)[..32] && b[0] == Concatenated(b)[..32];
      assert Concatenated(a[1..]) == Concatenated(a)[32..] && Concatenated(b[1..]) == Concatenated(b)[32..];
      ConcatenatedInjective(a[1..], b[1..]);
      assert a == [a[0]] + a[1..] && b == [b[0]] + b[1..];
    }
  }

  /** Different layouts or digests never hash the same bytes: nothing in the encoding runs together. */
  lemma {:induction false} PreimageInjective(size: nat, partSize: nat, digests: seq<Digest>, size': nat, partSize': nat, digests': seq<Digest>)
    requires Preimage(size, partSize, digests) == Preimage(size', partSize', digests')
    ensures size == size' && partSize == partSize' && digests == digests'
  {
    var inner, inner' := Decimal(partSize) + ([NEWLINE] + Concatenated(digests)), Decimal(partSize') + ([NEWLINE] + Concatenated(digests'));
    var whole, whole' := Decimal(size) + ([NEWLINE] + inner), Decimal(size') + ([NEWLINE] + inner');
    assert whole == (PREFIX + whole)[|PREFIX|..] && whole' == (PREFIX + whole')[|PREFIX|..];
    SplitAtNewline(Decimal(size), inner, Decimal(size'), inner');
    SplitAtNewline(Decimal(partSize), Concatenated(digests), Decimal(partSize'), Concatenated(digests'));
    ConcatenatedInjective(digests, digests');
  }

  function FingerprintOf(sha: Bytes -> Digest, size: nat, partSize: nat, digests: seq<Digest>): Digest {
    sha(Preimage(size, partSize, digests))
  }

  /** The digests of the first `n` parts. */
  function SliceDigests(sha: Bytes -> Digest, data: Bytes, partSize: int, n: nat): (r: seq<Digest>)
    requires partSize > 0 && n <= Parts(|data|, partSize)
    ensures |r| == n
    ensures forall i :: 0 <= i < n ==> r[i] == sha(Slice(data, i + 1, partSize))
  {
    if n == 0 then [] else SliceDigests(sha, data, partSize, n - 1) + [sha(Slice(data, n, partSize))]
  }

  /** The fingerprint a client computes for a file it cuts into parts of `partSize`. */
  function FileFingerprint(sha: Bytes -> Digest, data: Bytes, partSize: int): Digest
    requires partSize > 0
  {
    FingerprintOf(sha, |data|, partSize, SliceDigests(sha, data, partSize, Parts(|data|, partSize)))
  }

  /** `data[i * partSize:(i + 1) * partSize]`, which Python cuts at the end of the data. */
  method SliceOf(data: Bytes, i: int, partSize: int) returns (slice: Bytes)
    requires partSize > 0 && 0 <= i < Parts(|data|, partSize)
    ensures slice == Slice(data, i + 1, partSize)
  {
    PartBounds(i + 1, |data|, partSize);
    var hi := if (i + 1) * partSize < |data| then (i + 1) * partSize else |data|;
    slice := data[i * partSize..hi];
  }

  /** The fingerprint of in-memory data, with its part digests. */
  method FingerprintBytes(sha: Bytes -> Digest, data: Bytes, partSize: int)
    returns (r: Result<(Digest, seq<Digest>), PartError>)
    ensures r.Err? <==> partSize <= 0
    ensures r.Ok? ==> r.value == (FileFingerprint(sha, data, partSize), SliceDigests(sha, data, partSize, Parts(|data|, partSize)))
  {
    var total := TotalPartsFor(|data|, partSize);
    if total.Err? {
      return Err(total.error);
    }
    var hashes: seq<Digest> := [];
    for i := 0 to total.value
      invariant hashes == SliceDigests(sha, data, partSize, i)
    {
      var slice := SliceOf(data, i, partSize);
      hashes := hashes + [sha(slice)];
    }
    return Ok((FingerprintOf(sha, |data|, partSize, hashes), hashes));
  }
}
