/** The module-level state of the writer (the `invocations` counter) together
    with the filesystem it writes to, and the write protocol run call by call. */
module Writer {
  import opened FileSystem
  import opened TmpName
  import opened Attributes
  import opened Protocol
  import opened AtomicWrite

  class AtomicWriter {
    /** The filesystem, path by path. */
    var files: Files
    /** `var invocations = 0`: how many temp names have been handed out. */
    var invocations: nat
    const process: Process

    constructor (process: Process, files: Files)
      ensures this.files == files && invocations == 0 && this.process == process
    {
      this.process := process;
      this.files := files;
      invocations := 0;
    }

    /** `getTmpname`: bump the counter first, then hash with the new value. */
    method GetTmpname(filename: Path) returns (tmp: Path)
      modifies this`invocations
      ensures invocations == old(invocations) + 1
      ensures tmp == TmpFor(process, filename, invocations)
    {
      invocations := invocations + 1;
      tmp := filename + "." + Decimal(Hash32(process, invocations));
    }

    /** `fs.statSync(path)`; `None` stands for the exception. */
    method StatSync(path: Path, failing: Failing) returns (stats: Option<FileRec>)
      ensures stats == StatOf(files, path, failing)
    {
      if Stat in failing || path !in files {
        stats := None;
      } else {
        stats := Some(files[path]);
      }
    }

    /** One filesystem call on the temp file (open, write, fsync, close, chown,
        chmod or rename); `Some(error)` stands for the exception it throws. */
    method FsCall(s: Step, tmp: Path, failing: Failing) returns (err: Option<Error>)
      modifies this`files
      ensures Progress(files, err) == StepResult(old(files), s, tmp, failing)
    {
      if OpOf(s) in failing {
        err := Some(FsError(OpOf(s), failing[OpOf(s)]));
      } else {
        files := Apply(files, s, tmp);
        err := None;
      }
    }

    /** `fs.unlinkSync(tmp)`; the error it may throw is returned for the caller to drop. */
    method UnlinkSync(tmp: Path, failing: Failing) returns (err: Option<Error>)
      modifies this`files
      ensures files == Cleanup(old(files), tmp, failing)
      ensures err.Some? <==> Unlink in failing
    {
      if Unlink in failing {
        err := Some(FsError(Unlink, failing[Unlink]));
      } else {
        files := files - {tmp};
        err := None;
      }
    }

    /** The next statement of the try block: it runs only if nothing has thrown
        yet (`err == None`). Ghost `start` and `done` are the state at the start
        of the protocol and the calls planned so far. */
    method Then(err: Option<Error>, s: Step, tmp: Path, failing: Failing,
                ghost start: Files, ghost done: seq<Step>) returns (err': Option<Error>)
      requires Progress(files, err) == Exec(start, done, tmp, failing)
      modifies this`files
      ensures Progress(files, err') == Exec(start, done + [s], tmp, failing)
    {
      ExecSnoc(start, done, s, tmp, failing);
      err' := err;
      if err.None? {
        err' := FsCall(s, tmp, failing);
      }
    }

    /** Attribute resolution (the `if (!options.mode || !options.chown)` block):
        stat the target only when mode or chown is falsy, and fill the missing
        fields of a copy from what stat returned. */
    method ResolveAttributes(name: Path, options: Options, failing: Failing) returns (opts: Options)
      ensures opts == Resolve(options, StatOf(files, name, failing), process.hasGetuid)
    {
      opts := options;
      if !Truthy(opts.mode) || opts.chown.None? {
        var stats := StatSync(name, failing);
        if stats.Some? {
          opts := options; // Object.assign({}, options): a copy
          if !Truthy(opts.mode) {
            opts := opts.(mode := Bits(stats.value.mode));
          }
          if opts.chown.None? && process.hasGetuid {
            opts := opts.(chown := Some(OwnerOf(stats.value)));
          }
        }
      }
    }

    /** The body of the try block: open, write, fsync, close, chown, chmod and
        rename, each skipped once an earlier one has thrown. */
    method IssueCalls(opts: Options, data: Data, tmpfile: Path, name: Path, failing: Failing)
      returns (err: Option<Error>)
      modifies this`files
      ensures Progress(files, err) == Exec(old(files), Plan(opts, data, process, name), tmpfile, failing)
    {
      ghost var start := files;
      err := Then(None, OpenStep(OpenMode(opts.mode), process.owner), tmpfile, failing, start, []);
      ghost var done := [OpenStep(OpenMode(opts.mode), process.owner)];
      match data {
        case Buffer(bytes) =>
          err := Then(err, WriteStep(bytes), tmpfile, failing, start, done);
        case Value(text) =>
          var encoded := process.encode(text, EffectiveEncoding(opts.encoding));
          err := Then(err, WriteStep(encoded), tmpfile, failing, start, done);
        case Nullish =>
      }
      done := done + WritePart(opts, data, process);
      err := Then(err, FsyncStep, tmpfile, failing, start, done);
      done := done + [FsyncStep];
      err := Then(err, CloseStep, tmpfile, failing, start, done);
      done := done + [CloseStep];
      if opts.chown.Some? {
        err := Then(err, ChownStep(opts.chown.value), tmpfile, failing, start, done);
        done := done + [ChownStep(opts.chown.value)];
      } else {
        assert done + ChownPart(opts) == done;
      }
      if Truthy(opts.mode) {
        err := Then(err, ChmodStep(opts.mode.bits), tmpfile, failing, start, done);
        done := done + [ChmodStep(opts.mode.bits)];
      } else {
        assert done + ChmodPart(opts) == done;
      }
      err := Then(err, RenameStep(name), tmpfile, failing, start, done);
      done := done + [RenameStep(name)];
      PlanFlat(opts, data, process, name);
    }

    /** `writeFileSync(filename, data, options)`. `realpath` is the outcome of
        `fs.realpathSync(filename)` (`None`: it threw) and `failing` says which
        of the later calls throw. The returned outcome is `Pass` for a normal
        return and `Fail(e)` for `throw e`. The async `writeFile` issues the
        same calls in the same order, up to its first callback. */
    method WriteFileSync(filename: Path, data: Data, options: Option<Options>,
                         realpath: Option<Path>, failing: Failing) returns (r: Outcome)
      modifies this
      ensures invocations == old(invocations) + 1
      ensures Run(r, files)
        == WriteAtomic(old(files), invocations, filename, data, options, process, realpath, failing)
      ensures var target := ResolvedName(filename, realpath);
        var tmp := TmpFor(process, target, invocations);
        SameExcept(files, old(files), tmp, target)
        && (r.Fail? ==> FileAt(files, target) == FileAt(old(files), target) && r.error.op != Unlink)
        && (r.Pass? ==> tmp !in files && target in files)
    {
      var opts := if options.None? then NoOptions else options.value;
      var name := filename;
      if realpath.Some? {
        name := realpath.value;
      }
      var tmpfile := GetTmpname(name);
      ghost var start := files;
      opts := ResolveAttributes(name, opts, failing);
      var err := IssueCalls(opts, data, tmpfile, name, failing);
      if err.Some? {
        var _ := UnlinkSync(tmpfile, failing);
        r := Fail(err.value);
      } else {
        r := Pass;
      }
      WriteAtomicity(start, invocations, filename, data, options, process, realpath, failing);
      WriteFrame(start, invocations, filename, data, options, process, realpath, failing);
      WriteErrorPrecedence(start, invocations, filename, data, options, process, realpath, failing);
      WriteSuccess(start, invocations, filename, data, options, process, realpath, failing);
    }
  }
}
