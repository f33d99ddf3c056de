/** Jobs, as pools send them (`src/base/net/stratum/Job.h`, `Job.cpp`). */
module Jobs {
  import opened Arithmetic

  datatype Family = RandomX | Argon2 | KawPow | GhostRider | CryptoNight

  datatype Algorithm = Algorithm(id: nat, family: Family)

  const RX_YADA: nat := 0x72151279
  const BLOB_SIZE := 408

  type Blob = b: seq<Byte> | |b| == BLOB_SIZE witness seq(BLOB_SIZE, _ => 0)

  /** `index()`: 1 for a donated job, 0 for any other; nothing else is ever set. */
  type Index = i: nat | i < 2

  /** A job without its blob. */
  datatype JobInfo = JobInfo(
    id: string,
    clientId: string,
    index: Index,
    algorithm: Algorithm,
    backend: nat,
    diff: nat,
    target: nat,
    height: nat,
    seed: seq<Byte>,
    rawSize: nat) {

    /** `size()`; `setBlob` refuses more than fits. */
    function Size(): (n: nat)
      ensures n <= BLOB_SIZE
    {
      if rawSize <= BLOB_SIZE then rawSize else BLOB_SIZE
    }

    /** `Job::nonceOffset` (Job.cpp:155-173) */
    function NonceOffset(): (n: nat)
      ensures n + 4 <= BLOB_SIZE
    {
      if algorithm.family.KawPow? then 32
      else if algorithm.family.GhostRider? then 76
      else if algorithm.id == RX_YADA then 147
      else 39
    }
  }

  datatype Job = Job(info: JobInfo, blob: Blob) {
    /** `setIndex` */
    function WithIndex(i: Index): Job {
      this.(info := info.(index := i))
    }

    /** `setBackend` */
    function WithBackend(b: nat): Job {
      this.(info := info.(backend := b))
    }

    /** `isEqualBlob` (Job.cpp:53-56) */
    predicate EqualBlob(other: Job) {
      info.Size() == other.info.Size() && blob[..info.Size()] == other.blob[..info.Size()]
    }
  }

  const NO_ALGORITHM := Algorithm(0, CryptoNight)
  const NO_JOB := EmptyJob()

  function EmptyJob(): Job {
    Job(JobInfo("", "", 0, NO_ALGORITHM, 0, 0, 0, 0, [], 0), seq(BLOB_SIZE, _ => 0))
  }
}
