/** One call of `writeFileSync` (or of `writeFile`, whose callback chain issues
    the same calls in the same order up to its first callback), as a function
    of the filesystem before it, and what that call guarantees. */
module AtomicWrite {
  import opened FileSystem
  import opened TmpName
  import opened Attributes
  import opened Protocol

  /** The path actually written: the realpath result, or the literal name when
      realpath failed (a not yet existing file). */
  function ResolvedName(filename: Path, realpath: Option<Path>): Path
  {
    if realpath.Some? then realpath.value else filename
  }

  /** The options in force once a missing mode/owner has been taken from the target. */
  function EffectiveOptions(files: Files, target: Path, options: Option<Options>, failing: Failing, p: Process): Options
  {
    Resolve(OrEmpty(options), StatOf(files, target, failing), p.hasGetuid)
  }

  /** The call whose `getTmpname` saw the pre-incremented counter value `counter`. */
  function WriteAtomic(files: Files, counter: nat, filename: Path, data: Data, options: Option<Options>,
                 p: Process, realpath: Option<Path>, failing: Failing): Run
  {
    var target := ResolvedName(filename, realpath);
    var eff := EffectiveOptions(files, target, options, failing, p);
    Attempt(files, Plan(eff, data, p, target), TmpFor(p, target, counter), failing)
  }

  /** The target is the realpath result when there is one, else the literal
      name; the temp file is that name, a dot and a decimal hash, so it is a
      different path in the same directory. */
  lemma WritePaths(filename: Path, realpath: Option<Path>, p: Process, counter: nat)
    ensures var target := ResolvedName(filename, realpath);
      var tmp := TmpFor(p, target, counter);
      (realpath.Some? ==> target == realpath.value)
      && (realpath.None? ==> target == filename)
      && tmp != target && tmp[..|target|] == target && tmp[|target|] == '.'
      && DirPart(tmp) == DirPart(target)
  {
    TmpNameShape(p, ResolvedName(filename, realpath), counter);
  }

  /** Atomicity and cleanup: unless the final rename succeeds, the target's
      record (or its absence) is exactly what it was before the call, and the
      temp file is gone unless the cleanup unlink itself failed. */
  lemma WriteAtomicity(files: Files, counter: nat, filename: Path, data: Data, options: Option<Options>,
                       p: Process, realpath: Option<Path>, failing: Failing)
    ensures var run := WriteAtomic(files, counter, filename, data, options, p, realpath, failing);
      var target := ResolvedName(filename, realpath);
      run.outcome.Fail? ==>
        FileAt(run.files, target) == FileAt(files, target)
        && (Unlink !in failing ==> TmpFor(p, target, counter) !in run.files)
  {
    var target := ResolvedName(filename, realpath);
    var tmp := TmpFor(p, target, counter);
    var eff := EffectiveOptions(files, target, options, failing, p);
    TmpNameShape(p, target, counter);
    RenameOnlyLast(eff, data, p, target);
    ExecFailureKeepsTarget(files, Plan(eff, data, p, target), tmp, target, failing);
  }

  /** Frame: whatever happens, no path other than the temp path and the target changes. */
  lemma WriteFrame(files: Files, counter: nat, filename: Path, data: Data, options: Option<Options>,
                   p: Process, realpath: Option<Path>, failing: Failing)
    ensures var run := WriteAtomic(files, counter, filename, data, options, p, realpath, failing);
      var target := ResolvedName(filename, realpath);
      SameExcept(run.files, files, TmpFor(p, target, counter), target)
  {
    var target := ResolvedName(filename, realpath);
    var eff := EffectiveOptions(files, target, options, failing, p);
    PlanArguments(eff, data, p, target);
    ExecFrame(files, Plan(eff, data, p, target), TmpFor(p, target, counter), target, failing);
  }

  /** Error precedence: the call fails exactly when some issued call fails, and
      then reports the error of the first failing call in protocol order; the
      cleanup unlink's error and a stat error are never reported. */
  lemma WriteErrorPrecedence(files: Files, counter: nat, filename: Path, data: Data, options: Option<Options>,
                             p: Process, realpath: Option<Path>, failing: Failing)
    ensures var run := WriteAtomic(files, counter, filename, data, options, p, realpath, failing);
      var target := ResolvedName(filename, realpath);
      var plan := Plan(EffectiveOptions(files, target, options, failing, p), data, p, target);
      (run.outcome.Pass? <==> forall i :: 0 <= i < |plan| ==> OpOf(plan[i]) !in failing)
      && (run.outcome.Fail? ==>
            run.outcome.error.op != Unlink && run.outcome.error.op != Stat
            && exists k: nat :: FirstFailingAt(plan, failing, k)
                 && run.outcome.error == FsError(OpOf(plan[k]), failing[OpOf(plan[k])]))
  {
    var target := ResolvedName(filename, realpath);
    var plan := Plan(EffectiveOptions(files, target, options, failing, p), data, p, target);
    var tmp := TmpFor(p, target, counter);
    ExecPassIff(files, plan, tmp, failing);
    ExecReportsFirstFailure(files, plan, tmp, failing);
  }

  lemma {:induction false} ApplyAllConcat(files: Files, a: seq<Step>, b: seq<Step>, tmp: Path)
    ensures ApplyAll(files, a + b, tmp) == ApplyAll(ApplyAll(files, a, tmp), b, tmp)
    decreases |a|
  {
    if a == [] {
      assert a + b == b;
    } else {
      assert (a + b)[0] == a[0];
      assert (a + b)[1..] == a[1..] + b;
      ApplyAllConcat(Apply(files, a[0], tmp), a[1..], b, tmp);
    }
  }

  lemma ApplyAllOne(files: Files, s: Step, tmp: Path)
    ensures ApplyAll(files, [s], tmp) == Apply(files, s, tmp)
  {
    assert [s][1..] == [];
  }

  /** Applying the plan is applying its pieces one after another. */
  lemma ApplyPlanPieces(files: Files, eff: Options, data: Data, p: Process, target: Path, tmp: Path)
    ensures ApplyAll(files, Plan(eff, data, p, target), tmp)
      == ApplyAll(ApplyAll(ApplyAll(ApplyAll(ApplyAll(ApplyAll(ApplyAll(
           files, [OpenStep(OpenMode(eff.mode), p.owner)], tmp), WritePart(eff, data, p), tmp),
           [FsyncStep], tmp), [CloseStep], tmp), ChownPart(eff), tmp), ChmodPart(eff), tmp),
           [RenameStep(target)], tmp)
  {
    var o := [OpenStep(OpenMode(eff.mode), p.owner)];
    var w := WritePart(eff, data, p);
    var c := ChownPart(eff);
    var m := ChmodPart(eff);
    var r := [RenameStep(target)];
    var t1 := m + r;
    var t2 := c + t1;
    var t3 := [CloseStep] + t2;
    var t4 := [FsyncStep] + t3;
    var t5 := w + t4;
    assert Plan(eff, data, p, target) == o + t5;
    ApplyAllConcat(files, o, t5, tmp);
    var f1 := ApplyAll(files, o, tmp);
    ApplyAllConcat(f1, w, t4, tmp);
    var f2 := ApplyAll(f1, w, tmp);
    ApplyAllConcat(f2, [FsyncStep], t3, tmp);
    var f3 := ApplyAll(f2, [FsyncStep], tmp);
    ApplyAllConcat(f3, [CloseStep], t2, tmp);
    var f4 := ApplyAll(f3, [CloseStep], tmp);
    ApplyAllConcat(f4, c, t1, tmp);
    var f5 := ApplyAll(f4, c, tmp);
    ApplyAllConcat(f5, m, r, tmp);
  }

  /** The record the target ends up with when every planned call succeeds. */
  lemma ApplyPlan(files: Files, eff: Options, data: Data, p: Process, target: Path, tmp: Path)
    requires tmp != target
    ensures var after := ApplyAll(files, Plan(eff, data, p, target), tmp);
      tmp !in after && target in after
      && after[target].content == Content(Payload(data, eff.encoding, p))
      && after[target].mode
           == (if Truthy(eff.mode) then eff.mode.bits
               else if tmp in files then files[tmp].mode else OpenMode(eff.mode))
      && OwnerOf(after[target])
           == (if eff.chown.Some? then eff.chown.value
               else if tmp in files then OwnerOf(files[tmp]) else p.owner)
  {
    ApplyPlanPieces(files, eff, data, p, target, tmp);
    var mode0 := if tmp in files then files[tmp].mode else OpenMode(eff.mode);
    var owner0 := if tmp in files then OwnerOf(files[tmp]) else p.owner;
    var f1 := ApplyAll(files, [OpenStep(OpenMode(eff.mode), p.owner)], tmp);
    ApplyAllOne(files, OpenStep(OpenMode(eff.mode), p.owner), tmp);
    assert tmp in f1 && f1[tmp] == FileRec([], mode0, owner0.uid, owner0.gid);
    var w := WritePart(eff, data, p);
    var f2 := ApplyAll(f1, w, tmp);
    if w != [] { ApplyAllOne(f1, w[0], tmp); }
    var content := Content(Payload(data, eff.encoding, p));
    assert tmp in f2 && f2[tmp] == FileRec(content, mode0, owner0.uid, owner0.gid);
    var f3 := ApplyAll(f2, [FsyncStep], tmp);
    ApplyAllOne(f2, FsyncStep, tmp);
    var f4 := ApplyAll(f3, [CloseStep], tmp);
    ApplyAllOne(f3, CloseStep, tmp);
    var c := ChownPart(eff);
    var f5 := ApplyAll(f4, c, tmp);
    if c != [] { ApplyAllOne(f4, c[0], tmp); }
    var owner1 := if eff.chown.Some? then eff.chown.value else owner0;
    assert tmp in f5 && f5[tmp] == FileRec(content, mode0, owner1.uid, owner1.gid);
    var m := ChmodPart(eff);
    var f6 := ApplyAll(f5, m, tmp);
    if m != [] { ApplyAllOne(f5, m[0], tmp); }
    var mode1 := if Truthy(eff.mode) then eff.mode.bits else mode0;
    assert tmp in f6 && f6[tmp] == FileRec(content, mode1, owner1.uid, owner1.gid);
    ApplyAllOne(f6, RenameStep(target), tmp);
  }

  /** Success: the target holds exactly the encoded data, with the effective mode
      and owner when those were applied (otherwise the ones the temp file was
      created with), and the temp path no longer exists. */
  lemma WriteSuccess(files: Files, counter: nat, filename: Path, data: Data, options: Option<Options>,
                     p: Process, realpath: Option<Path>, failing: Failing)
    ensures var run := WriteAtomic(files, counter, filename, data, options, p, realpath, failing);
      var target := ResolvedName(filename, realpath);
      var tmp := TmpFor(p, target, counter);
      var eff := EffectiveOptions(files, target, options, failing, p);
      run.outcome.Pass? ==>
        tmp !in run.files && target in run.files
        && run.files[target].content == Content(Payload(data, eff.encoding, p))
        && run.files[target].mode
             == (if Truthy(eff.mode) then eff.mode.bits
                 else if tmp in files then files[tmp].mode else OpenMode(eff.mode))
        && OwnerOf(run.files[target])
             == (if eff.chown.Some? then eff.chown.value
                 else if tmp in files then OwnerOf(files[tmp]) else p.owner)
  {
    var run := WriteAtomic(files, counter, filename, data, options, p, realpath, failing);
    var target := ResolvedName(filename, realpath);
    var tmp := TmpFor(p, target, counter);
    var eff := EffectiveOptions(files, target, options, failing, p);
    var plan := Plan(eff, data, p, target);
    if run.outcome.Pass? {
      TmpNameShape(p, target, counter);
      ExecPassIff(files, plan, tmp, failing);
      ExecAllPass(files, plan, tmp, failing);
      ApplyPlan(files, eff, data, p, target, tmp);
    }
  }

  /** The bytes a successful call leaves at the target, by the kind of data: a
      Buffer verbatim, nothing for null or undefined, and otherwise `String(data)`
      encoded with the caller's encoding or 'utf8' (resolution never changes it). */
  lemma WrittenBytes(files: Files, counter: nat, filename: Path, data: Data, options: Option<Options>,
                     p: Process, realpath: Option<Path>, failing: Failing)
    ensures var run := WriteAtomic(files, counter, filename, data, options, p, realpath, failing);
      var target := ResolvedName(filename, realpath);
      run.outcome.Pass? ==>
        target in run.files
        && run.files[target].content
             == match data
                case Buffer(bytes) => bytes
                case Nullish => []
                case Value(text) => p.encode(text, EffectiveEncoding(OrEmpty(options).encoding))
  {
    WriteSuccess(files, counter, filename, data, options, p, realpath, failing);
  }

  /** With no mode and no owner supplied, a successful write over an existing
      target keeps its mode, and its owner too when `process.getuid` exists
      (the temp file being new). */
  lemma DefaultsKeepTargetAttributes(files: Files, counter: nat, filename: Path, data: Data, options: Option<Options>,
                                     p: Process, realpath: Option<Path>, failing: Failing)
    requires options.Some? ==> !Truthy(options.value.mode) && options.value.chown.None?
    requires ResolvedName(filename, realpath) in files
    requires TmpFor(p, ResolvedName(filename, realpath), counter) !in files
    requires Stat !in failing
    ensures var run := WriteAtomic(files, counter, filename, data, options, p, realpath, failing);
      var target := ResolvedName(filename, realpath);
      run.outcome.Pass? ==>
        target in run.files
        && run.files[target].mode == files[target].mode
        && OwnerOf(run.files[target]) == (if p.hasGetuid then OwnerOf(files[target]) else p.owner)
  {
    WriteSuccess(files, counter, filename, data, options, p, realpath, failing);
  }

  /** A mode set explicitly by one write survives a later write that gives no mode. */
  lemma ModeCarriesOver(files: Files, c1: nat, c2: nat, filename: Path, d1: Data, d2: Data,
                        o1: Options, o2: Options, p: Process, realpath: Option<Path>,
                        failing1: Failing, failing2: Failing)
    requires Truthy(o1.mode) && !Truthy(o2.mode)
    requires Stat !in failing2
    requires TmpFor(p, ResolvedName(filename, realpath), c2)
      !in WriteAtomic(files, c1, filename, d1, Some(o1), p, realpath, failing1).files
    ensures var run1 := WriteAtomic(files, c1, filename, d1, Some(o1), p, realpath, failing1);
      var run2 := WriteAtomic(run1.files, c2, filename, d2, Some(o2), p, realpath, failing2);
      var target := ResolvedName(filename, realpath);
      run1.outcome.Pass? && run2.outcome.Pass? ==>
        target in run2.files && run2.files[target].mode == o1.mode.bits
  {
    var run1 := WriteAtomic(files, c1, filename, d1, Some(o1), p, realpath, failing1);
    WriteSuccess(files, c1, filename, d1, Some(o1), p, realpath, failing1);
    if run1.outcome.Pass? {
      WriteSuccess(run1.files, c2, filename, d2, Some(o2), p, realpath, failing2);
    }
  }
}
