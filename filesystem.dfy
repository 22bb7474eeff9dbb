/** The abstract filesystem the atomic writer runs against: a map from path to
    file record, the process facts the writer consults, and the failure oracle
    that decides which filesystem calls fail in a given run. */
module FileSystem {

  datatype Option<+T> = None | Some(value: T)

  newtype byte = x: int | 0 <= x < 256

  type Path = string

  /** The owner pair handed to chown and reported by stat. */
  datatype Owner = Owner(uid: nat, gid: nat)

  /** What stat reports about a file, plus its bytes. */
  datatype FileRec = FileRec(content: seq<byte>, mode: nat, uid: nat, gid: nat)

  type Files = map<Path, FileRec>

  /** The filesystem calls the writer makes (realpath is modelled by its outcome). */
  datatype Op = Stat | Open | Write | Fsync | Close | Chown | Chmod | Rename | Unlink

  /** A failed filesystem call: which call, and the error code it raised. */
  datatype Error = FsError(op: Op, code: string)

  /** The caller-visible result: the callback's `err` argument, or the thrown exception. */
  datatype Outcome = Pass | Fail(error: Error)

  /** Failure oracle for one run: every call of an op in the domain fails with that code. */
  type Failing = map<Op, string>

  /** The process-wide facts the writer reads: the pid, the module's own file name
      (the hash seed), the 32-bit MurmurHash3 and the text encoders (foreign code,
      passed in), whether `process.getuid` exists, and the effective owner that a
      newly created file receives. */
  datatype Process = Process(
    pid: nat,
    moduleFile: string,
    murmur: string -> nat,
    encode: (string, string) -> seq<byte>,
    hasGetuid: bool,
    owner: Owner)

  function FileAt(files: Files, p: Path): Option<FileRec>
  {
    if p in files then Some(files[p]) else None
  }

  function OwnerOf(f: FileRec): Owner
  {
    Owner(f.uid, f.gid)
  }

  /** `fs.stat(p)`: fails when the oracle says so or when nothing is at `p`. */
  function StatOf(files: Files, p: Path, failing: Failing): (s: Option<FileRec>)
    ensures s.Some? <==> Stat !in failing && p in files
    ensures s.Some? ==> s.value == files[p]
  {
    if Stat in failing || p !in files then None else Some(files[p])
  }

  /** Every path other than `p` and `q` is in the same state in both maps. */
  ghost predicate SameExcept(a: Files, b: Files, p: Path, q: Path)
  {
    forall x :: x != p && x != q ==> FileAt(a, x) == FileAt(b, x)
  }
}
