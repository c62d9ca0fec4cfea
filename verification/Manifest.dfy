/** Checking a verified upload against what the store holds, before completing it. */
module Manifest {
  import opened Results
  import opened Fingerprint

  /** One entry of the store's own listing. A missing size or ETag is listed as 0 or "". */
  datatype Listed = Listed(number: int, etag: string, size: int, sha: Option<Digest>)

  /** The layout a session froze when the upload started. */
  datatype Session = Session(size: nat, partSize: int, total: int, fingerprint: Digest)

  predicate Frozen(s: Session) {
    s.partSize > 0 && s.total == Parts(s.size, s.partSize)
  }

  /** A part to complete the upload with: the store's ETag and digest. */
  datatype Entry = Entry(number: int, etag: string, checksum: Option<Digest>)

  /** `PartMismatch(0)` says that the file as a whole does not hash to the fingerprint. */
  datatype Refusal = PartsMissing(missing: seq<int>) | PartMismatch(number: int)

  // ----- the parts worth keeping

  predicate Fits(s: Session, p: Listed)
    requires Frozen(s)
  {
    1 <= p.number <= s.total && p.size == PartSize(p.number, s.size, s.partSize)
  }

  /** The parts inside the layout whose size is the expected one; of several entries for one
      part the last one listed counts. */
  function Good(s: Session, stored: seq<Listed>): (r: map<int, Listed>)
    requires Frozen(s)
    ensures forall n :: n in r ==> r[n] in stored && Fits(s, r[n]) && r[n].number == n
  {
    if stored == [] then map[]
    else
      var last := stored[|stored| - 1];
      var rest := Good(s, stored[..|stored| - 1]);
      if Fits(s, last) then rest[last.number := last] else rest
  }

  /** A part has a good entry exactly when some listed entry fits it. */
  lemma {:induction false} GoodHasEveryFit(s: Session, stored: seq<Listed>)
    requires Frozen(s)
    ensures forall p :: p in stored && Fits(s, p) ==> p.number in Good(s, stored)
  {
    if stored != [] {
      var n := |stored| - 1;
      GoodHasEveryFit(s, stored[..n]);
      forall p | p in stored && Fits(s, p) ensures p.number in Good(s, stored) {
        assert p in stored[..n] || p == stored[n];
      }
    }
  }

  /** Of the entries that fit, the last one listed for a number is the one kept. */
  lemma {:induction false} LastFitIsKept(s: Session, stored: seq<Listed>, i: nat)
    requires Frozen(s) && i < |stored| && Fits(s, stored[i])
    requires forall j :: i < j < |stored| && Fits(s, stored[j]) ==> stored[j].number != stored[i].number
    ensures stored[i].number in Good(s, stored) && Good(s, stored)[stored[i].number] == stored[i]
    decreases |stored|
  {
    var n := |stored| - 1;
    if i < n {
      LastFitIsKept(s, stored[..n], i);
      assert Fits(s, stored[n]) ==> stored[n].number != stored[i].number;
    }
  }

  method GoodParts(s: Session, stored: seq<Listed>) returns (good: map<int, Listed>)
    requires Frozen(s)
    ensures good == Good(s, stored)
  {
    good := map[];
    for i := 0 to |stored|
      invariant good == Good(s, stored[..i])
    {
      assert stored[..i + 1][..i] == stored[..i];
      var p := stored[i];
      if 1 <= p.number <= s.total {
        var expected := ExpectedPartSize(p.number, s.size, s.partSize);
        if expected.Ok? && p.size == expected.value {
          good := good[p.number := p];
        }
      }
    }
    assert stored[..|stored|] == stored;
  }

  /** The numbers `1..n` the map does not hold, ascending. */
  function Missing(good: map<int, Listed>, n: nat): (r: seq<int>)
    ensures forall m :: m in r <==> 1 <= m <= n && m !in good
    ensures forall i, j :: 0 <= i < j < |r| ==> r[i] < r[j]
  {
    if n == 0 then []
    else
      var rest := Missing(good, n - 1);
      assert forall i :: 0 <= i < |rest| ==> rest[i] in rest;
      if n in good then rest else rest + [n]
  }

  predicate Complete(good: map<int, Listed>, n: int) {
    forall m :: 1 <= m <= n ==> m in good
  }

  // ----- the verdict

  /** Does the store's digest of part `m` contradict the declared one? Either may be unknown. */
  predicate Contradicts(good: map<int, Listed>, declared: map<int, Digest>, m: int) {
    m in good && good[m].sha.Some? && m in declared && good[m].sha.value != declared[m]
  }

  predicate AllReported(good: map<int, Listed>, n: int) {
    forall m :: 1 <= m <= n ==> m in good && good[m].sha.Some?
  }

  function Reported(good: map<int, Listed>, n: nat): (r: seq<Digest>)
    requires AllReported(good, n)
    ensures |r| == n && forall i :: 0 <= i < n ==> r[i] == good[i + 1].sha.value
  {
    if n == 0 then [] else Reported(good, n - 1) + [good[n].sha.value]
  }

  function Entries(good: map<int, Listed>, n: nat): (r: seq<Entry>)
    requires Complete(good, n)
    ensures |r| == n && forall i :: 0 <= i < n ==> r[i] == Entry(i + 1, good[i + 1].etag, good[i + 1].sha)
  {
    if n == 0 then [] else Entries(good, n - 1) + [Entry(n, good[n].etag, good[n].sha)]
  }

  /** What the check may answer: the missing parts, all of them; the first contradicted part; 0
      for a file that does not hash to the fingerprint; else the parts to complete with. */
  ghost predicate Verdict(sha: Bytes -> Digest, s: Session, stored: seq<Listed>, declared: map<int, Digest>, r: Result<seq<Entry>, Refusal>)
    requires Frozen(s)
  {
    var good := Good(s, stored);
    if !Complete(good, s.total) then r == Err(PartsMissing(Missing(good, s.total)))
    else if exists m :: 1 <= m <= s.total && Contradicts(good, declared, m) then
      && r.Err? && r.error.PartMismatch? && Contradicts(good, declared, r.error.number) && 1 <= r.error.number <= s.total
      && forall m :: 1 <= m < r.error.number ==> !Contradicts(good, declared, m)
    else if AllReported(good, s.total) && FingerprintOf(sha, s.size, s.partSize, Reported(good, s.total)) != s.fingerprint then
      r == Err(PartMismatch(0))
    else r == Ok(Entries(good, s.total))
  }

  method MissingFrom(good: map<int, Listed>, total: nat) returns (missing: seq<int>)
    ensures missing == Missing(good, total)
  {
    missing := [];
    for n := 1 to total + 1
      invariant missing == Missing(good, n - 1)
    {
      if n !in good {
        missing := missing + [n];
      }
    }
  }

  lemma {:induction false} CompleteIff(good: map<int, Listed>, n: nat)
    ensures Complete(good, n) <==> Missing(good, n) == []
  {
    var r := Missing(good, n);
    if r != [] { assert r[0] in r; }
    if !Complete(good, n) {
      var m :| 1 <= m <= n && m !in good;
      assert m in r;
    }
  }

  method CheckDigests(sha: Bytes -> Digest, s: Session, good: map<int, Listed>, declared: map<int, Digest>)
    returns (r: Result<seq<Entry>, Refusal>)
    requires Frozen(s) && Complete(good, s.total)
    ensures if exists m :: 1 <= m <= s.total && Contradicts(good, declared, m) then
              && r.Err? && r.error.PartMismatch? && Contradicts(good, declared, r.error.number) && 1 <= r.error.number <= s.total
              && forall m :: 1 <= m < r.error.number ==> !Contradicts(good, declared, m)
            else if AllReported(good, s.total) && FingerprintOf(sha, s.size, s.partSize, Reported(good, s.total)) != s.fingerprint then
              r == Err(PartMismatch(0))
            else r == Ok(Entries(good, s.total))
  {
    var allReported, digests: seq<Digest> := true, [];
    for n := 1 to s.total + 1
      invariant forall m :: 1 <= m < n ==> !Contradicts(good, declared, m)
      invariant allReported == AllReported(good, n - 1)
      invariant allReported ==> digests == Reported(good, n - 1)
    {
      if good[n].sha.None? {
        allReported := false;
      } else {
        if n in declared && good[n].sha.value != declared[n] {
          assert Contradicts(good, declared, n);
          return Err(PartMismatch(n));
        }
        digests := digests + [good[n].sha.value];
      }
    }
    if allReported && FingerprintOf(sha, s.size, s.partSize, digests) != s.fingerprint {
      return Err(PartMismatch(0));
    }
    var out := [];
    for n := 1 to s.total + 1
      invariant out == Entries(good, n - 1)
    {
      out := out + [Entry(n, good[n].etag, good[n].sha)];
    }
    return Ok(out);
  }

  method VerifyManifest(sha: Bytes -> Digest, s: Session, stored: seq<Listed>, declared: map<int, Digest>)
    returns (r: Result<seq<Entry>, Refusal>)
    requires Frozen(s)
    ensures Verdict(sha, s, stored, declared, r)
  {
    var good := GoodParts(s, stored);
    var missing := MissingFrom(good, s.total);
    CompleteIff(good, s.total);
    if missing != [] {
      return Err(PartsMissing(missing));
    }
    r := CheckDigests(sha, s, good, declared);
  }

  /** The parts handed back are the kept ones, in order, with their digests; and where the store
      reported one and the client declared one, the two agree. */
  lemma {:induction false} AcceptedPartsAgree(sha: Bytes -> Digest, s: Session, stored: seq<Listed>, declared: map<int, Digest>,
                                              r: Result<seq<Entry>, Refusal>)
    requires Frozen(s) && Verdict(sha, s, stored, declared, r) && r.Ok?
    ensures |r.value| == s.total
    ensures forall i :: 0 <= i < s.total ==>
              && i + 1 in Good(s, stored) && r.value[i].etag == Good(s, stored)[i + 1].etag && r.value[i].checksum == Good(s, stored)[i + 1].sha
              && (i + 1 in declared ==> r.value[i].checksum in {None, Some(declared[i + 1])})
  {
    var good := Good(s, stored);
    forall i | 0 <= i < s.total && i + 1 in declared ensures r.value[i].checksum in {None, Some(declared[i + 1])} {
      assert !Contradicts(good, declared, i + 1);
    }
  }

  /** With every part there, part `n` is refused if and only if it is the first whose reported
      digest is not the declared one. */
  lemma {:induction false} RefusedPartIff(sha: Bytes -> Digest, s: Session, stored: seq<Listed>, declared: map<int, Digest>,
                                          r: Result<seq<Entry>, Refusal>, n: int)
    requires Frozen(s) && Verdict(sha, s, stored, declared, r) && n > 0
    requires forall m :: 1 <= m <= s.total ==> m in Good(s, stored)
    ensures var good := Good(s, stored);
            r == Err(PartMismatch(n))
            <==> && n <= s.total && n in declared && good[n].sha.Some? && good[n].sha.value != declared[n]
                 && forall m :: 1 <= m < n && m in declared ==> good[m].sha in {None, Some(declared[m])}
  {
    var good := Good(s, stored);
    assert Complete(good, s.total);
    if r == Err(PartMismatch(n)) {
      forall m | 1 <= m < n && m in declared ensures good[m].sha in {None, Some(declared[m])} {
        assert !Contradicts(good, declared, m);
      }
    } else if n <= s.total && n in declared && good[n].sha.Some? && good[n].sha.value != declared[n] {
      assert Contradicts(good, declared, n);
      var first := r.error.number;
      assert first < n && good[first].sha !in {None, Some(declared[first])};
    }
  }

  // ----- what an accepted upload is

  /** The store lists parts it holds, with their true size and the digest it computed. */
  ghost predicate Honest(sha: Bytes -> Digest, stored: seq<Listed>, held: int -> Bytes) {
    forall p :: p in stored ==> p.size == |held(p.number)| && (p.sha.Some? ==> p.sha.value == sha(held(p.number)))
  }

  lemma {:induction false} AcceptedDigests(sha: Bytes -> Digest, s: Session, stored: seq<Listed>, declared: map<int, Digest>, r: Result<seq<Entry>, Refusal>,
                        held: int -> Bytes)
    requires Frozen(s) && Verdict(sha, s, stored, declared, r) && r.Ok?
    requires Honest(sha, stored, held) && forall p :: p in stored ==> p.sha.Some?
    ensures var good := Good(s, stored);
            && AllReported(good, s.total) && FingerprintOf(sha, s.size, s.partSize, Reported(good, s.total)) == s.fingerprint
            && forall m :: 1 <= m <= s.total ==> Reported(good, s.total)[m - 1] == sha(held(m)) && |held(m)| == PartSize(m, s.size, s.partSize)
  {
    var good := Good(s, stored);
    assert AllReported(good, s.total);
    forall m | 1 <= m <= s.total ensures Reported(good, s.total)[m - 1] == sha(held(m)) && |held(m)| == PartSize(m, s.size, s.partSize) {
      assert Reported(good, s.total)[m - 1] == good[m].sha.value;
      assert good[m] in stored;
    }
  }

  /** The bytes the check hashes itself, if it hashes any. */
  ghost function HashedFor(s: Session, stored: seq<Listed>): set<Bytes>
    requires Frozen(s)
  {
    var good := Good(s, stored);
    if AllReported(good, s.total) then {Preimage(s.size, s.partSize, Reported(good, s.total))} else {}
  }

  /** When the check accepts an upload and the store reported every digest, the parts it hands
      back are numbered 1, 2, ... and, joined in that order, are any file that has the session's
      fingerprint — unless the hash itself collided on one of the inputs compared. */
  lemma {:induction false} StoredFileIsTheClientsFile(sha: Bytes -> Digest, s: Session, stored: seq<Listed>, declared: map<int, Digest>,
                                   r: Result<seq<Entry>, Refusal>, held: int -> Bytes, file: Bytes, partSize: int)
    requires Frozen(s) && Verdict(sha, s, stored, declared, r) && r.Ok?
    requires Honest(sha, stored, held) && forall p :: p in stored ==> p.sha.Some?
    requires partSize > 0 && s.fingerprint == FileFingerprint(sha, file, partSize)
    requires forall x :: x in HashedFor(s, stored) ==>
               NoCollision(sha, x, Preimage(|file|, partSize, SliceDigests(sha, file, partSize, Parts(|file|, partSize))))
    requires forall m :: 1 <= m <= Parts(|file|, partSize) ==> NoCollision(sha, held(m), Slice(file, m, partSize))
    ensures s.size == |file| && s.partSize == partSize
    ensures |r.value| == s.total && forall i :: 0 <= i < s.total ==> r.value[i].number == i + 1
    ensures PartsJoined(held, s.total) == file
  {
    AcceptedDigests(sha, s, stored, declared, r, held);
    var good := Good(s, stored);
    var mine, theirs := Reported(good, s.total), SliceDigests(sha, file, partSize, Parts(|file|, partSize));
    assert Preimage(s.size, s.partSize, mine) in HashedFor(s, stored);
    PreimageInjective(s.size, s.partSize, mine, |file|, partSize, theirs);
    forall m | 1 <= m <= s.total ensures held(m) == Slice(file, m, partSize) {
      assert mine[m - 1] == theirs[m - 1];
    }
    AllSlicesJoin(file, partSize, held);
  }

  predicate Lists(stored: seq<Listed>, m: int) {
    exists i :: 0 <= i < |stored| && stored[i].number == m
  }

  lemma {:induction false} HonestParts(sha: Bytes -> Digest, s: Session, stored: seq<Listed>, held: int -> Bytes, file: Bytes)
    requires Frozen(s) && Honest(sha, stored, held) && s.size == |file|
    requires forall m :: 1 <= m <= s.total ==> held(m) == Slice(file, m, s.partSize)
    requires forall m :: 1 <= m <= s.total ==> Lists(stored, m)
    ensures var good := Good(s, stored);
            forall m :: 1 <= m <= s.total ==>
              m in good && (good[m].sha.Some? ==> good[m].sha.value == sha(Slice(file, m, s.partSize)))
  {
    var good := Good(s, stored);
    GoodHasEveryFit(s, stored);
    forall m | 1 <= m <= s.total
      ensures m in good && (good[m].sha.Some? ==> good[m].sha.value == sha(Slice(file, m, s.partSize)))
    {
      assert Lists(stored, m);
      var i :| 0 <= i < |stored| && stored[i].number == m;
      assert stored[i] in stored && Fits(s, stored[i]);
      assert good[m] in stored;
    }
  }

  lemma {:induction false} ReportedOwnDigests(sha: Bytes -> Digest, good: map<int, Listed>, n: nat, file: Bytes, partSize: int)
    requires partSize > 0 && n == Parts(|file|, partSize) && AllReported(good, n)
    requires forall m :: 1 <= m <= n ==> good[m].sha.value == sha(Slice(file, m, partSize))
    ensures Reported(good, n) == SliceDigests(sha, file, partSize, n)
  {
  }

  /** And the check never refuses the client's own file: a store that holds every slice of it
      and lists each as it is passes, whatever digests it reports and the client declares truly. */
  lemma {:induction false} HonestUploadPasses(sha: Bytes -> Digest, s: Session, stored: seq<Listed>, declared: map<int, Digest>,
                           r: Result<seq<Entry>, Refusal>, held: int -> Bytes, file: Bytes)
    requires Frozen(s) && Verdict(sha, s, stored, declared, r) && Honest(sha, stored, held)
    requires s.size == |file| && s.fingerprint == FileFingerprint(sha, file, s.partSize)
    requires forall m :: 1 <= m <= s.total ==> held(m) == Slice(file, m, s.partSize)
    requires forall m :: 1 <= m <= s.total ==> Lists(stored, m)
    requires forall m :: m in declared && 1 <= m <= s.total ==> declared[m] == sha(Slice(file, m, s.partSize))
    ensures r.Ok?
  {
    var good := Good(s, stored);
    HonestParts(sha, s, stored, held, file);
    assert Complete(good, s.total);
    assert forall m :: 1 <= m <= s.total ==> !Contradicts(good, declared, m);
    if AllReported(good, s.total) { ReportedOwnDigests(sha, good, s.total, file, s.partSize); }
  }

  // ----- resuming

  /** The good parts among `1..n`, ascending. */
  function Kept(good: map<int, Listed>, n: nat): (r: seq<Listed>)
    requires forall m :: m in good ==> good[m].number == m
    ensures |r| + |Missing(good, n)| == n
    ensures forall p :: p in r ==> 1 <= p.number <= n && p.number in good && good[p.number] == p
    ensures forall i, j :: 0 <= i < j < |r| ==> r[i].number < r[j].number
  {
    if n == 0 then []
    else
      var rest := Kept(good, n - 1);
      assert forall i :: 0 <= i < |rest| ==> rest[i] in rest;
      if n in good then rest + [good[n]] else rest
  }

  method KeptOf(good: map<int, Listed>, total: nat) returns (kept: seq<Listed>)
    requires forall n :: n in good ==> good[n].number == n
    ensures kept == Kept(good, total)
  {
    kept := [];
    for n := 1 to total + 1
      invariant kept == Kept(good, n - 1)
    {
      if n in good {
        kept := kept + [good[n]];
      }
    }
  }

  /** What a resumed upload continues from: the parts to keep and the parts to send again are a
      partition of the layout, and exactly the parts without a well-sized entry are sent again. */
  method ManifestOf(s: Session, stored: seq<Listed>) returns (uploaded: seq<Listed>, missing: seq<int>)
    requires Frozen(s)
    ensures forall m :: m in missing <==> 1 <= m <= s.total && forall p :: p in stored && Fits(s, p) ==> p.number != m
    ensures forall p :: p in uploaded ==> p in stored && Fits(s, p)
    ensures |uploaded| + |missing| == s.total
    ensures forall i, j :: 0 <= i < j < |uploaded| ==> uploaded[i].number < uploaded[j].number
  {
    var good := GoodParts(s, stored);
    GoodHasEveryFit(s, stored);
    uploaded := KeptOf(good, s.total);
    missing := MissingFrom(good, s.total);
  }
}
