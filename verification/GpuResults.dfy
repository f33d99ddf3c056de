/**
 Results found by a GPU are hashed again on the CPU before they are sent
 (`getResults` and `checkHash`, `src/net/JobResults.cpp:103-194`). Each nonce is written
 over the last one in the bundle's own copy of the job. The hash functions are parameters.
 */
module GpuResults {
  import opened Arithmetic
  import opened Jobs
  import opened Options

  type Digest = d: seq<Byte> | |d| == 32 witness seq(32, _ => 0)
  type Nonce = n: nat | n < 0x1_0000_0000

  const ZERO: Digest := seq(32, _ => 0)

  datatype JobResult = JobResult(
    algorithm: Algorithm,
    index: Index,
    clientId: string,
    jobId: string,
    backend: nat,
    nonce: nat,
    diff: nat,
    result: Digest,
    headerHash: Digest,
    mixHash: Digest)

  /** Hash functions: the general one takes the job and the hashed bytes, KawPow a header, a nonce and a height. */
  datatype Hashes = Hashes(hash: (JobInfo, seq<Byte>) -> Digest, kawpow: (Digest, nat, nat) -> (Digest, Digest))

  // ---- What becomes of one nonce ----

  function LittleEndian(bytes: seq<Byte>): nat {
    if bytes == [] then 0 else bytes[0] + 256 * LittleEndian(bytes[1..])
  }

  function NonceBytes(n: Nonce): (r: seq<Byte>)
    ensures |r| == 4
  {
    [n % 256, n / 0x100 % 256, n / 0x1_0000 % 256, n / 0x100_0000]
  }

  function SetNonce(blob: Blob, offset: nat, n: Nonce): Blob
    requires offset + 4 <= BLOB_SIZE
  {
    blob[..offset] + NonceBytes(n) + blob[offset + 4..]
  }

  function Reversed(d: Digest): (r: Digest)
    ensures forall i :: 0 <= i < 32 ==> r[i] == d[31 - i]
  {
    seq(32, i requires 0 <= i < 32 => d[31 - i])
  }

  /** The comparison with the target, on the last eight bytes. */
  predicate Meets(hash: Digest, target: nat) {
    LittleEndian(hash[24..32]) < target
  }

  function ResultOf(info: JobInfo, nonce: nat, result: Digest, headerHash: Digest, mixHash: Digest): JobResult {
    JobResult(info.algorithm, info.index, info.clientId, info.id, info.backend, nonce, info.diff, result,
              headerHash, mixHash)
  }

  /** The result for a nonce of a bundle, or `None` for a compute error. */
  function Check(env: Hashes, job: Job, nonce: Nonce): Option<JobResult> {
    var info := job.info;
    var blob := SetNonce(job.blob, info.NonceOffset(), nonce);
    if info.algorithm.family.KawPow? then
      var fullNonce := LittleEndian(blob[32..40]);
      var (output, mix) := env.kawpow(blob[..32], fullNonce, info.height);
      if Meets(Reversed(output), info.target)
      then Some(ResultOf(info, fullNonce, output, blob[..32], mix)) else None
    else
      var hash := env.hash(info, blob[..info.Size()]);
      if Meets(hash, info.target) then Some(ResultOf(info, nonce, hash, ZERO, ZERO)) else None
  }

  /** Whether the nonces of a job are hashed at all; `ready` says that its dataset exists. */
  predicate Hashed(info: JobInfo, ready: bool) {
    !info.algorithm.family.Argon2? && (info.algorithm.family.RandomX? ==> ready)
  }

  function Accepted(env: Hashes, job: Job, nonces: seq<Nonce>): seq<JobResult> {
    if nonces == [] then []
    else
      var r := Check(env, job, nonces[|nonces| - 1]);
      Accepted(env, job, nonces[..|nonces| - 1]) + if r.Some? then [r.value] else []
  }

  function Rejected(env: Hashes, job: Job, nonces: seq<Nonce>): nat {
    if nonces == [] then 0
    else Rejected(env, job, nonces[..|nonces| - 1])
         + if Check(env, job, nonces[|nonces| - 1]).Some? then 0 else 1
  }

  function Results(env: Hashes, job: Job, nonces: seq<Nonce>, ready: bool): seq<JobResult> {
    if Hashed(job.info, ready) then Accepted(env, job, nonces) else []
  }

  function Errors(env: Hashes, job: Job, nonces: seq<Nonce>, ready: bool): nat {
    if Hashed(job.info, ready) then Rejected(env, job, nonces) else |nonces|
  }

  /** Every nonce becomes one result or one error. */
  lemma {:induction false} EachNonceOnce(env: Hashes, job: Job, nonces: seq<Nonce>, ready: bool)
    ensures |Results(env, job, nonces, ready)| + Errors(env, job, nonces, ready) == |nonces|
    decreases |nonces|
  {
    if nonces != [] && Hashed(job.info, ready) {
      EachNonceOnce(env, job, nonces[..|nonces| - 1], ready);
    }
  }

  /** A result carries the index, the id and the client of the job it was made from. */
  lemma {:induction false} ResultsKeepJob(env: Hashes, job: Job, nonces: seq<Nonce>, ready: bool)
    ensures forall r <- Results(env, job, nonces, ready) ::
              r.index == job.info.index && r.jobId == job.info.id && r.clientId == job.info.clientId
    decreases |nonces|
  {
    if nonces != [] && Hashed(job.info, ready) {
      ResultsKeepJob(env, job, nonces[..|nonces| - 1], ready);
    }
  }

  /** A nonce written over another leaves no trace of it. */
  lemma {:induction false} SetNonceTwice(blob: Blob, offset: nat, a: Nonce, b: Nonce)
    requires offset + 4 <= BLOB_SIZE
    ensures SetNonce(SetNonce(blob, offset, a), offset, b) == SetNonce(blob, offset, b)
  {
    hide NonceBytes;
    var first := SetNonce(blob, offset, a);
    assert first[..offset] == blob[..offset];
    assert first[offset + 4..] == blob[offset + 4..];
  }

  lemma {:induction false} FirstByte(x: Byte, rest: seq<Byte>)
    ensures LittleEndian([x] + rest) == x + 256 * LittleEndian(rest)
  {
    assert ([x] + rest)[1..] == rest;
  }

  lemma {:induction false} FourBytes(n: Nonce)
    ensures n == n % 256 + 256 * (n / 0x100 % 256 + 256 * (n / 0x1_0000 % 256 + 256 * (n / 0x100_0000)))
  {
  }

  lemma {:induction false} NonceValue(n: Nonce, rest: seq<Byte>)
    ensures LittleEndian(NonceBytes(n) + rest) == n + 0x1_0000_0000 * LittleEndian(rest)
  {
    hide LittleEndian;
    var bytes := NonceBytes(n);
    var a, b, c, d := bytes[0], bytes[1], bytes[2], bytes[3];
    FourBytes(n);
    FirstByte(d, rest);
    FirstByte(c, [d] + rest);
    FirstByte(b, [c] + ([d] + rest));
    FirstByte(a, [b] + ([c] + ([d] + rest)));
    assert bytes + rest == [a] + ([b] + ([c] + ([d] + rest)));
  }

  /**
   The nonce of a KawPow result is eight bytes wide: the low half is the nonce of the
   bundle, the high half comes from the job.
   */
  lemma {:induction false} KawPowNonce(env: Hashes, job: Job, nonce: Nonce)
    requires job.info.algorithm.family.KawPow? && Check(env, job, nonce).Some?
    ensures Check(env, job, nonce).value.nonce == nonce + 0x1_0000_0000 * LittleEndian(job.blob[36..40])
    ensures Check(env, job, nonce).value.headerHash == job.blob[..32]
  {
    hide LittleEndian, NonceBytes, Meets;
    var blob := SetNonce(job.blob, 32, nonce);
    assert blob[32..40] == NonceBytes(nonce) + job.blob[36..40];
    assert blob[..32] == job.blob[..32];
    NonceValue(nonce, job.blob[36..40]);
  }

  // ---- Which nonces become results, and what results ----

  /** Byte `k` of a nonce, the lowest first. */
  function NonceByte(n: Nonce, k: nat): Byte {
    if k == 0 then n % 0x100
    else if k == 1 then n / 0x100 % 0x100
    else if k == 2 then n / 0x1_0000 % 0x100
    else n / 0x100_0000 % 0x100
  }

  /** Where an algorithm wants its nonce. */
  function NoncePlace(algorithm: Algorithm): nat {
    if algorithm.family.KawPow? then 32
    else if algorithm.family.GhostRider? then 76
    else if algorithm.id == RX_YADA then 147
    else 39
  }

  function InputByte(job: Job, n: Nonce, i: nat): Byte
    requires i < BLOB_SIZE
  {
    var o := NoncePlace(job.info.algorithm);
    if o <= i < o + 4 then NonceByte(n, i - o) else job.blob[i]
  }

  /** The bytes hashed for a nonce: those of the job, with the nonce at its place. */
  function Input(job: Job, n: Nonce): (bytes: seq<Byte>)
    ensures |bytes| == BLOB_SIZE
  {
    seq(BLOB_SIZE, i requires 0 <= i < BLOB_SIZE => InputByte(job, n, i))
  }

  /** How many of them: as many as the pool sent, if they fit. */
  function InputLength(info: JobInfo): (n: nat)
    ensures n <= BLOB_SIZE
  {
    if info.rawSize <= BLOB_SIZE then info.rawSize else BLOB_SIZE
  }

  /** Four bytes as a number, the lowest first. */
  function Quad(a: int, b: int, c: int, d: int): int {
    a + 0x100 * b + 0x1_0000 * c + 0x100_0000 * d
  }

  /** The last eight bytes as a number, the lowest first. */
  function LastEight(d: Digest): int {
    Quad(d[24], d[25], d[26], d[27]) + 0x1_0000_0000 * Quad(d[28], d[29], d[30], d[31])
  }

  /** The first eight bytes as a number, the highest first. */
  function FirstEight(d: Digest): int {
    Quad(d[7], d[6], d[5], d[4]) + 0x1_0000_0000 * Quad(d[3], d[2], d[1], d[0])
  }

  function WideNonce(job: Job, n: Nonce): (r: nat) {
    n + 0x1_0000_0000 * Quad(job.blob[36], job.blob[37], job.blob[38], job.blob[39])
  }

  /** The hash of a nonce is below the target. */
  predicate Wins(env: Hashes, job: Job, n: Nonce) {
    if job.info.algorithm.family.KawPow?
    then FirstEight(env.kawpow(job.blob[..32], WideNonce(job, n), job.info.height).0) < job.info.target
    else LastEight(env.hash(job.info, Input(job, n)[..InputLength(job.info)])) < job.info.target
  }

  /** What is sent for it. */
  function Win(env: Hashes, job: Job, n: Nonce): JobResult {
    var info := job.info;
    if info.algorithm.family.KawPow? then
      var (output, mix) := env.kawpow(job.blob[..32], WideNonce(job, n), info.height);
      JobResult(info.algorithm, info.index, info.clientId, info.id, info.backend, WideNonce(job, n), info.diff,
                output, job.blob[..32], mix)
    else
      JobResult(info.algorithm, info.index, info.clientId, info.id, info.backend, n, info.diff,
                env.hash(info, Input(job, n)[..InputLength(info)]), ZERO, ZERO)
  }

  /** The nonces that win, in order. */
  function Winning(env: Hashes, job: Job, nonces: seq<Nonce>): seq<Nonce> {
    if nonces == [] then []
    else (if Wins(env, job, nonces[0]) then [nonces[0]] else []) + Winning(env, job, nonces[1..])
  }

  lemma {:induction false} LastEightIs(d: Digest)
    ensures LittleEndian(d[24..32]) == LastEight(d)
  {
    hide LittleEndian;
    EightBytes(d[24], d[25], d[26], d[27], d[28], d[29], d[30], d[31]);
    assert d[24..32] == [d[24], d[25], d[26], d[27], d[28], d[29], d[30], d[31]];
  }

  lemma {:induction false} FourValue(a: Byte, b: Byte, c: Byte, d: Byte, rest: seq<Byte>)
    ensures LittleEndian([a, b, c, d] + rest)
         == Quad(a, b, c, d) + 0x1_0000_0000 * LittleEndian(rest)
  {
    hide LittleEndian;
    FirstByte(d, rest);
    FirstByte(c, [d] + rest);
    FirstByte(b, [c] + ([d] + rest));
    FirstByte(a, [b] + ([c] + ([d] + rest)));
    assert [a, b, c, d] + rest == [a] + ([b] + ([c] + ([d] + rest)));
  }

  lemma {:induction false} EightBytes(a: Byte, b: Byte, c: Byte, d: Byte, e: Byte, f: Byte, g: Byte, h: Byte)
    ensures LittleEndian([a, b, c, d, e, f, g, h])
         == Quad(a, b, c, d) + 0x1_0000_0000 * Quad(e, f, g, h)
  {
    FourValue(e, f, g, h, []);
    assert LittleEndian([]) == 0;
    hide LittleEndian;
    FourValue(a, b, c, d, [e, f, g, h]);
    assert [e, f, g, h] + [] == [e, f, g, h];
    assert [a, b, c, d] + [e, f, g, h] == [a, b, c, d, e, f, g, h];
  }

  lemma {:induction false} InputIs(job: Job, n: Nonce)
    ensures SetNonce(job.blob, job.info.NonceOffset(), n) == Input(job, n)
  {
  }

  lemma {:induction false} WideNonceIs(job: Job, n: Nonce)
    requires job.info.algorithm.family.KawPow?
    ensures LittleEndian(Input(job, n)[32..40]) == WideNonce(job, n)
  {
    hide LittleEndian;
    var bytes := Input(job, n);
    var high: seq<Byte> := [job.blob[36], job.blob[37], job.blob[38], job.blob[39]];
    assert bytes[32..40] == NonceBytes(n) + high;
    NonceValue(n, high);
    FourValue(job.blob[36], job.blob[37], job.blob[38], job.blob[39], []);
    assert high + [] == high && LittleEndian([]) == 0 by { NoBytes(); }
  }

  lemma {:induction false} NoBytes()
    ensures LittleEndian([]) == 0
  {
  }

  lemma {:induction false} ReversedEight(d: Digest)
    ensures LastEight(Reversed(d)) == FirstEight(d)
  {
  }

  /** One nonce becomes a result if and only if it wins. */
  lemma {:induction false} CheckIs(env: Hashes, job: Job, n: Nonce)
    ensures Check(env, job, n) == if Wins(env, job, n) then Some(Win(env, job, n)) else None
  {
    InputIs(job, n);
    var bytes := Input(job, n);
    if job.info.algorithm.family.KawPow? {
      WideNonceIs(job, n);
      assert bytes[..32] == job.blob[..32];
      var output := env.kawpow(job.blob[..32], WideNonce(job, n), job.info.height).0;
      LastEightIs(Reversed(output));
      ReversedEight(output);
    } else {
      LastEightIs(env.hash(job.info, bytes[..job.info.Size()]));
    }
    hide SetNonce, Input, LittleEndian, LastEight, FirstEight, WideNonce, Reversed;
  }

  lemma {:induction false} WinningAppend(env: Hashes, job: Job, nonces: seq<Nonce>, n: Nonce)
    ensures Winning(env, job, nonces + [n]) == Winning(env, job, nonces) + if Wins(env, job, n) then [n] else []
    decreases |nonces|
  {
    hide Wins;
    if nonces == [] {
      assert [n][1..] == [] && nonces + [n] == [n];
    } else {
      WinningAppend(env, job, nonces[1..], n);
      assert (nonces + [n])[1..] == nonces[1..] + [n];
    }
  }

  /**
   Main result: if the nonces of a bundle are hashed at all, its results are those whose
   hash is below the target, in order, each with its own nonce and hash; the others are
   errors. If not, all are errors.
   */
  lemma {:induction false} ResultsExactly(env: Hashes, job: Job, nonces: seq<Nonce>, ready: bool)
    ensures var results, errors := Results(env, job, nonces, ready), Errors(env, job, nonces, ready);
            var family := job.info.algorithm.family;
            if family.Argon2? || (family.RandomX? && !ready) then results == [] && errors == |nonces|
            else
              var winning := Winning(env, job, nonces);
              && |results| == |winning| && errors == |nonces| - |winning|
              && forall i :: 0 <= i < |winning| ==> results[i] == Win(env, job, winning[i])
    decreases |nonces|
  {
    hide Wins, Win, Check;
    if nonces != [] && Hashed(job.info, ready) {
      var n := |nonces| - 1;
      ResultsExactly(env, job, nonces[..n], ready);
      CheckIs(env, job, nonces[n]);
      WinningAppend(env, job, nonces[..n], nonces[n]);
      assert nonces[..n] + [nonces[n]] == nonces;
    }
  }

  // ---- The code ----

  class JobBundle {
    const info: JobInfo
    const blob: array<Byte>
    const nonces: seq<Nonce>

    ghost predicate Valid() {
      blob.Length == BLOB_SIZE
    }

    ghost function CurrentJob(): Job
      requires Valid()
      reads blob
    {
      Job(info, blob[..])
    }

    constructor (job: Job, nonces: seq<Nonce>)
      ensures Valid() && fresh(blob) && CurrentJob() == job && this.nonces == nonces
    {
      info, this.nonces := job.info, nonces;
      blob := new Byte[BLOB_SIZE](i requires 0 <= i < BLOB_SIZE => job.blob[i]);
      new;
      assert blob[..] == job.blob;
    }

    /** `*bundle.job.nonce() = nonce` */
    method WriteNonce(nonce: Nonce)
      requires Valid()
      modifies blob
      ensures blob[..] == SetNonce(old(blob[..]), info.NonceOffset(), nonce)
    {
      var o := info.NonceOffset();
      var bytes := NonceBytes(nonce);
      blob[o] := bytes[0];
      blob[o + 1] := bytes[1];
      blob[o + 2] := bytes[2];
      blob[o + 3] := bytes[3];
    }

    /** `checkHash` (JobResults.cpp:103-112) */
    method CheckHash(results: seq<JobResult>, nonce: Nonce, hash: Digest, errors: nat)
      returns (newResults: seq<JobResult>, newErrors: nat)
      ensures Meets(hash, info.target) ==>
                newResults == results + [ResultOf(info, nonce, hash, ZERO, ZERO)] && newErrors == errors
      ensures !Meets(hash, info.target) ==> newResults == results && newErrors == errors + 1
    {
      newResults, newErrors := results, errors;
      if LittleEndian(hash[24..32]) < info.target {
        newResults := newResults + [ResultOf(info, nonce, hash, ZERO, ZERO)];
      } else {
        newErrors := newErrors + 1;
      }
    }

    /** The body of the KawPow loop (JobResults.cpp:150-176), after the nonce is written. */
    method CheckKawPow(env: Hashes, results: seq<JobResult>, errors: nat)
      returns (newResults: seq<JobResult>, newErrors: nat)
      requires Valid()
      ensures var full := LittleEndian(blob[32..40]);
              var (output, mix) := env.kawpow(blob[..32], full, info.height);
              (if Meets(Reversed(output), info.target)
               then newResults == results + [ResultOf(info, full, output, blob[..32], mix)] && newErrors == errors
               else newResults == results && newErrors == errors + 1)
    {
      newResults, newErrors := results, errors;
      var headerHash: Digest := blob[..32];
      var fullNonce := LittleEndian(blob[32..40]);
      var (output, mix) := env.kawpow(headerHash, fullNonce, info.height);
      var hash := new Byte[32](_ => 0);
      for i := 0 to 32
        invariant forall k :: 0 <= k < i ==> hash[k] == output[31 - k]
      {
        hash[i] := output[31 - i];
      }
      assert hash[..] == Reversed(output);
      if LittleEndian(hash[24..32]) < info.target {
        assert hash[24..32] == hash[..][24..32];
        newResults := newResults + [ResultOf(info, fullNonce, output, headerHash, mix)];
      } else {
        assert hash[24..32] == hash[..][24..32];
        newErrors := newErrors + 1;
      }
    }

    /** One turn of a loop over the nonces. */
    method CheckNonce(env: Hashes, nonce: Nonce, results: seq<JobResult>, errors: nat)
      returns (newResults: seq<JobResult>, newErrors: nat)
      requires Valid()
      modifies blob
      ensures blob[..] == SetNonce(old(blob[..]), info.NonceOffset(), nonce)
      ensures var r := Check(env, old(CurrentJob()), nonce);
              newResults == results + (if r.Some? then [r.value] else [])
              && newErrors == errors + (if r.Some? then 0 else 1)
    {
      WriteNonce(nonce);
      ghost var whole := blob[..];
      if info.algorithm.family.KawPow? {
        newResults, newErrors := CheckKawPow(env, results, errors);
        assert whole[32..40] == blob[32..40] && whole[..32] == blob[..32];
      } else {
        var hash := env.hash(info, blob[..info.Size()]);
        newResults, newErrors := CheckHash(results, nonce, hash, errors);
        assert whole[..info.Size()] == blob[..info.Size()];
      }
    }

    /** `getResults` (JobResults.cpp:115-194) */
    method GetResults(env: Hashes, ready: bool, results: seq<JobResult>, errors: nat)
      returns (newResults: seq<JobResult>, newErrors: nat)
      requires Valid()
      modifies blob
      ensures newResults == results + Results(env, old(CurrentJob()), nonces, ready)
      ensures newErrors == errors + Errors(env, old(CurrentJob()), nonces, ready)
    {
      hide Check, SetNonce;
      newResults, newErrors := results, errors;
      if info.algorithm.family.RandomX? && !ready {
        newErrors := newErrors + |nonces|;
        return;
      }
      if info.algorithm.family.Argon2? {
        newErrors := newErrors + |nonces|;
        return;
      }
      ghost var job := CurrentJob();
      var o := info.NonceOffset();
      for i := 0 to |nonces|
        invariant newResults == results + Accepted(env, job, nonces[..i])
        invariant newErrors == errors + Rejected(env, job, nonces[..i])
        invariant i == 0 ==> blob[..] == job.blob
        invariant i > 0 ==> blob[..] == SetNonce(job.blob, o, nonces[i - 1])
      {
        ghost var before := blob[..];
        if i > 0 {
          SetNonceTwice(job.blob, o, nonces[i - 1], nonces[i]);
        }
        newResults, newErrors := CheckNonce(env, nonces[i], newResults, newErrors);
        assert nonces[..i + 1][..i] == nonces[..i];
        SameCheck(env, Job(info, before), job, nonces[i]);
      }
      assert nonces[..|nonces|] == nonces;
    }
  }

  /** Only what the nonce does not cover matters. */
  lemma {:induction false} SameCheck(env: Hashes, a: Job, b: Job, nonce: Nonce)
    requires a.info == b.info
    requires SetNonce(a.blob, a.info.NonceOffset(), nonce) == SetNonce(b.blob, b.info.NonceOffset(), nonce)
    ensures Check(env, a, nonce) == Check(env, b, nonce)
  {
  }
}
