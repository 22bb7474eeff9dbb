/** The write protocol as a list of filesystem steps on the temp file, and the
    semantics of running such a list against the filesystem map: steps run in
    order until the first one fails; a failure triggers a best-effort unlink of
    the temp file and reports the failing step's own error. */
module Protocol {
  import opened FileSystem
  import opened Attributes

  /** What the caller passes as `data`: a Buffer, null/undefined, or any other
      value, held here as its `String(data)` rendering. */
  datatype Data = Buffer(bytes: seq<byte>) | Nullish | Value(text: string)

  /** The bytes handed to `fs.write`, or `None` when no write call is made. */
  function Payload(data: Data, encoding: string, p: Process): (b: Option<seq<byte>>)
    ensures data.Buffer? ==> b == Some(data.bytes)
    ensures data.Nullish? <==> b.None?
    ensures data.Value? ==> b == Some(p.encode(data.text, EffectiveEncoding(encoding)))
  {
    match data
    case Buffer(bytes) => Some(bytes)
    case Nullish => None
    case Value(text) => Some(p.encode(text, EffectiveEncoding(encoding)))
  }

  /** What the temp file holds once the write step (if any) is done. */
  function Content(payload: Option<seq<byte>>): seq<byte>
  {
    if payload.Some? then payload.value else []
  }

  /** One filesystem call on the temp file. `Open` carries the requested mode and
      the owner a newly created file gets; `Rename` carries its destination. */
  datatype Step =
    | OpenStep(mode: nat, owner: Owner)
    | WriteStep(bytes: seq<byte>)
    | FsyncStep
    | CloseStep
    | ChownStep(to: Owner)
    | ChmodStep(bits: nat)
    | RenameStep(dest: Path)

  function OpOf(s: Step): (op: Op)
    ensures op != Stat && op != Unlink
  {
    match s
    case OpenStep(_, _) => Open
    case WriteStep(_) => Write
    case FsyncStep => Fsync
    case CloseStep => Close
    case ChownStep(_) => Chown
    case ChmodStep(_) => Chmod
    case RenameStep(_) => Rename
  }

  /** Position of a step in the protocol order open, write, fsync, close, chown, chmod, rename. */
  function Rank(s: Step): nat
  {
    match s
    case OpenStep(_, _) => 0
    case WriteStep(_) => 1
    case FsyncStep => 2
    case CloseStep => 3
    case ChownStep(_) => 4
    case ChmodStep(_) => 5
    case RenameStep(_) => 6
  }

  /** The write call, issued unless the data is null or undefined. */
  function WritePart(eff: Options, data: Data, p: Process): seq<Step>
  {
    var payload := Payload(data, eff.encoding, p);
    if payload.Some? then [WriteStep(payload.value)] else []
  }

  /** `if (options.chown) fs.chown(...)` */
  function ChownPart(eff: Options): seq<Step>
  {
    if eff.chown.Some? then [ChownStep(eff.chown.value)] else []
  }

  /** `if (options.mode) fs.chmod(...)` */
  function ChmodPart(eff: Options): seq<Step>
  {
    if Truthy(eff.mode) then [ChmodStep(eff.mode.bits)] else []
  }

  /** The calls the writer issues, in order, for the effective options `eff`. */
  function Plan(eff: Options, data: Data, p: Process, target: Path): seq<Step>
  {
    [OpenStep(OpenMode(eff.mode), p.owner)]
    + (WritePart(eff, data, p)
    + ([FsyncStep]
    + ([CloseStep]
    + (ChownPart(eff)
    + (ChmodPart(eff)
    + [RenameStep(target)])))))
  }

  /** The plan read left to right, as the writer issues it. */
  lemma PlanFlat(eff: Options, data: Data, p: Process, target: Path)
    ensures Plan(eff, data, p, target)
      == [OpenStep(OpenMode(eff.mode), p.owner)] + WritePart(eff, data, p) + [FsyncStep] + [CloseStep]
         + ChownPart(eff) + ChmodPart(eff) + [RenameStep(target)]
  {
  }

  /** The effect of one step that succeeds. Opening with 'w' truncates an
      existing file (keeping its mode and owner) or creates a new one. */
  function Apply(files: Files, s: Step, tmp: Path): Files
  {
    match s
    case OpenStep(m, o) =>
      files[tmp := if tmp in files then files[tmp].(content := []) else FileRec([], m, o.uid, o.gid)]
    case WriteStep(b) =>
      if tmp in files then files[tmp := files[tmp].(content := b)] else files
    case FsyncStep => files
    case CloseStep => files
    case ChownStep(o) =>
      if tmp in files then files[tmp := files[tmp].(uid := o.uid, gid := o.gid)] else files
    case ChmodStep(m) =>
      if tmp in files then files[tmp := files[tmp].(mode := m)] else files
    case RenameStep(dest) =>
      if tmp in files then (files - {tmp})[dest := files[tmp]] else files
  }

  /** The filesystem after some steps, and the error that stopped them, if any. */
  datatype Progress = Progress(files: Files, failure: Option<Error>)

  /** One call: it fails, leaving the filesystem alone, when the oracle names its op. */
  function StepResult(files: Files, s: Step, tmp: Path, failing: Failing): Progress
  {
    if OpOf(s) in failing then Progress(files, Some(FsError(OpOf(s), failing[OpOf(s)])))
    else Progress(Apply(files, s, tmp), None)
  }

  /** Run the steps in order, stopping at the first failure. */
  function Exec(files: Files, steps: seq<Step>, tmp: Path, failing: Failing): Progress
    decreases |steps|
  {
    if steps == [] then Progress(files, None)
    else
      var first := StepResult(files, steps[0], tmp, failing);
      if first.failure.Some? then first else Exec(first.files, steps[1..], tmp, failing)
  }

  /** `try { unlinkSync(tmpfile) } catch (e) {}`: a failing unlink changes nothing. */
  function Cleanup(files: Files, tmp: Path, failing: Failing): (r: Files)
    ensures Unlink !in failing ==> tmp !in r
    ensures forall x :: x != tmp ==> FileAt(r, x) == FileAt(files, x)
  {
    if Unlink in failing then files else files - {tmp}
  }

  datatype Run = Run(outcome: Outcome, files: Files)

  /** The whole attempt: the steps, then on failure the cleanup and the original error. */
  function Attempt(files: Files, steps: seq<Step>, tmp: Path, failing: Failing): Run
  {
    var done := Exec(files, steps, tmp, failing);
    if done.failure.None? then Run(Pass, done.files)
    else Run(Fail(done.failure.value), Cleanup(done.files, tmp, failing))
  }

  // ----- the step-sequence semantics -----

  /** Running one more planned step after a prefix: nothing happens once a step
      has failed, otherwise the step runs on the prefix's result. */
  lemma {:induction false} ExecSnoc(files: Files, steps: seq<Step>, s: Step, tmp: Path, failing: Failing)
    ensures var before := Exec(files, steps, tmp, failing);
      Exec(files, steps + [s], tmp, failing)
        == if before.failure.Some? then before else StepResult(before.files, s, tmp, failing)
    decreases |steps|
  {
    if steps == [] {
      assert [] + [s] == [s];
      assert [s][1..] == [];
    } else {
      assert (steps + [s])[0] == steps[0];
      assert (steps + [s])[1..] == steps[1..] + [s];
      var first := StepResult(files, steps[0], tmp, failing);
      if first.failure.None? {
        ExecSnoc(first.files, steps[1..], s, tmp, failing);
      }
    }
  }

  /** A run reports no error exactly when no step's op is in the failure oracle. */
  lemma {:induction false} ExecPassIff(files: Files, steps: seq<Step>, tmp: Path, failing: Failing)
    ensures Exec(files, steps, tmp, failing).failure.None?
      <==> forall i :: 0 <= i < |steps| ==> OpOf(steps[i]) !in failing
    decreases |steps|
  {
    if steps != [] {
      var first := StepResult(files, steps[0], tmp, failing);
      if first.failure.None? {
        ExecPassIff(first.files, steps[1..], tmp, failing);
        assert forall i :: 1 <= i < |steps| ==> steps[i] == steps[1..][i - 1];
      }
    }
  }

  /** `k` is the first step whose op is in the failure oracle. */
  predicate FirstFailingAt(steps: seq<Step>, failing: Failing, k: nat)
  {
    k < |steps| && OpOf(steps[k]) in failing
    && forall j :: 0 <= j < k ==> OpOf(steps[j]) !in failing
  }

  /** The error that stops a run is the one raised by the first failing step. */
  lemma {:induction false} ExecReportsFirstFailure(files: Files, steps: seq<Step>, tmp: Path, failing: Failing)
    ensures var done := Exec(files, steps, tmp, failing);
      done.failure.Some? ==>
        exists k: nat :: FirstFailingAt(steps, failing, k)
          && done.failure.value == FsError(OpOf(steps[k]), failing[OpOf(steps[k])])
    decreases |steps|
  {
    if steps != [] {
      var first := StepResult(files, steps[0], tmp, failing);
      if first.failure.Some? {
        assert FirstFailingAt(steps, failing, 0);
      } else {
        var done := Exec(first.files, steps[1..], tmp, failing);
        ExecReportsFirstFailure(first.files, steps[1..], tmp, failing);
        if done.failure.Some? {
          var k: nat :| FirstFailingAt(steps[1..], failing, k)
            && done.failure.value == FsError(OpOf(steps[1..][k]), failing[OpOf(steps[1..][k])]);
          assert FirstFailingAt(steps, failing, k + 1) by {
            assert steps[k + 1] == steps[1..][k];
            forall j | 0 <= j < k + 1 ensures OpOf(steps[j]) !in failing {
              if j > 0 { assert steps[j] == steps[1..][j - 1]; }
            }
          }
        }
      }
    }
  }

  /** A run touches only the temp path and the destinations of its renames. */
  lemma {:induction false} ExecFrame(files: Files, steps: seq<Step>, tmp: Path, target: Path, failing: Failing)
    requires forall i :: 0 <= i < |steps| && steps[i].RenameStep? ==> steps[i].dest == target
    ensures SameExcept(Exec(files, steps, tmp, failing).files, files, tmp, target)
    decreases |steps|
  {
    if steps != [] {
      var first := StepResult(files, steps[0], tmp, failing);
      if first.failure.None? {
        assert forall i :: 1 <= i < |steps| ==> steps[i] == steps[1..][i - 1];
        ExecFrame(first.files, steps[1..], tmp, target, failing);
      }
    }
  }

  /** Until a rename succeeds the target is untouched: when only the last step
      may be a rename and the run fails, the target is as it was. */
  lemma {:induction false} ExecFailureKeepsTarget(files: Files, steps: seq<Step>, tmp: Path, target: Path, failing: Failing)
    requires tmp != target
    requires forall i :: 0 <= i < |steps| - 1 ==> !steps[i].RenameStep?
    ensures var done := Exec(files, steps, tmp, failing);
      done.failure.Some? ==> FileAt(done.files, target) == FileAt(files, target)
    decreases |steps|
  {
    if steps != [] {
      var first := StepResult(files, steps[0], tmp, failing);
      if first.failure.None? && |steps| > 1 {
        assert forall i :: 1 <= i < |steps| ==> steps[i] == steps[1..][i - 1];
        ExecFailureKeepsTarget(first.files, steps[1..], tmp, target, failing);
      }
    }
  }

  /** A run whose steps all succeed: the filesystem is the result of applying them in order. */
  lemma {:induction false} ExecAllPass(files: Files, steps: seq<Step>, tmp: Path, failing: Failing)
    requires forall i :: 0 <= i < |steps| ==> OpOf(steps[i]) !in failing
    ensures Exec(files, steps, tmp, failing) == Progress(ApplyAll(files, steps, tmp), None)
    decreases |steps|
  {
    if steps != [] {
      assert forall i :: 1 <= i < |steps| ==> steps[i] == steps[1..][i - 1];
      ExecAllPass(Apply(files, steps[0], tmp), steps[1..], tmp, failing);
    }
  }

  /** Applying steps one after another, no failures. */
  function ApplyAll(files: Files, steps: seq<Step>, tmp: Path): Files
    decreases |steps|
  {
    if steps == [] then files else ApplyAll(Apply(files, steps[0], tmp), steps[1..], tmp)
  }

  // ----- the shape of the plan -----

  /** Steps follow the protocol order open, write, fsync, close, chown, chmod,
      rename, each kind at most once. */
  lemma PlanOrdered(eff: Options, data: Data, p: Process, target: Path)
    ensures Ranked(Plan(eff, data, p, target))
  {
    var plan := Plan(eff, data, p, target);
    var o := [OpenStep(OpenMode(eff.mode), p.owner)];
    var w := WritePart(eff, data, p);
    var c := ChownPart(eff);
    var m := ChmodPart(eff);
    var r := [RenameStep(target)];
    var t1 := m + r;
    var t2 := c + t1;
    var t3 := [CloseStep] + t2;
    var t4 := [FsyncStep] + t3;
    var t5 := w + t4;
    assert plan == o + t5;
    PrependRanked(m, r, 6, 5);
    PrependRanked(c, t1, 5, 4);
    PrependRanked([CloseStep], t2, 4, 3);
    PrependRanked([FsyncStep], t3, 3, 2);
    PrependRanked(w, t4, 2, 1);
    PrependRanked(o, t5, 1, 0);
  }

  /** Open comes first, fsync and close always run, and rename onto the target
      is the last step. */
  lemma PlanEnds(eff: Options, data: Data, p: Process, target: Path)
    ensures var plan := Plan(eff, data, p, target);
      plan[0].OpenStep? && plan[0].mode == OpenMode(eff.mode)
      && plan[|plan| - 1] == RenameStep(target)
      && (exists i :: 0 <= i < |plan| && plan[i] == FsyncStep)
      && (exists i :: 0 <= i < |plan| && plan[i] == CloseStep)
  {
    var plan := Plan(eff, data, p, target);
    var o := [OpenStep(OpenMode(eff.mode), p.owner)];
    var w := WritePart(eff, data, p);
    var c := ChownPart(eff);
    var m := ChmodPart(eff);
    var tail := c + m + [RenameStep(target)];
    assert plan == (o + w + [FsyncStep, CloseStep]) + tail;
    assert plan[|o + w|] == FsyncStep;
    assert plan[|o + w| + 1] == CloseStep;
    assert plan[|plan| - 1] == tail[|tail| - 1];
  }

  /** The steps' ranks strictly increase along the list. */
  ghost predicate Ranked(s: seq<Step>)
  {
    forall i, j :: 0 <= i < j < |s| ==> Rank(s[i]) < Rank(s[j])
  }

  ghost predicate RanksAtLeast(s: seq<Step>, k: nat)
  {
    forall i :: 0 <= i < |s| ==> k <= Rank(s[i])
  }

  lemma PrependRanked(a: seq<Step>, b: seq<Step>, k: nat, k': nat)
    requires |a| <= 1 && k' <= k
    requires Ranked(b) && RanksAtLeast(b, k)
    requires forall i :: 0 <= i < |a| ==> k' <= Rank(a[i]) < k
    ensures Ranked(a + b) && RanksAtLeast(a + b, k')
  {
    if a != [] {
      assert forall j :: 1 <= j < |a + b| ==> (a + b)[j] == b[j - 1];
    } else {
      assert a + b == b;
    }
  }

  /** The write call is issued exactly when the data is not null or undefined. */
  lemma PlanWriteGuard(eff: Options, data: Data, p: Process, target: Path)
    ensures var plan := Plan(eff, data, p, target);
      (exists i :: 0 <= i < |plan| && plan[i].WriteStep?) <==> !data.Nullish?
  {
    var plan := Plan(eff, data, p, target);
    var w := WritePart(eff, data, p);
    var rest := [FsyncStep] + ([CloseStep] + (ChownPart(eff) + (ChmodPart(eff) + [RenameStep(target)])));
    assert plan == [OpenStep(OpenMode(eff.mode), p.owner)] + (w + rest);
    assert forall x :: x in rest ==> !x.WriteStep?;
    if exists i :: 0 <= i < |plan| && plan[i].WriteStep? {
      var i :| 0 <= i < |plan| && plan[i].WriteStep?;
      assert plan[i] in w + rest;
    }
    if !data.Nullish? {
      assert plan[1].WriteStep?;
    }
  }

  /** Chown is issued exactly when the effective chown is truthy. */
  lemma PlanChownGuard(eff: Options, data: Data, p: Process, target: Path)
    ensures var plan := Plan(eff, data, p, target);
      (exists i :: 0 <= i < |plan| && plan[i].ChownStep?) <==> eff.chown.Some?
  {
    var plan := Plan(eff, data, p, target);
    var head := [OpenStep(OpenMode(eff.mode), p.owner)] + WritePart(eff, data, p) + [FsyncStep] + [CloseStep];
    var c := ChownPart(eff);
    var tail := ChmodPart(eff) + [RenameStep(target)];
    PlanFlat(eff, data, p, target);
    assert plan == head + c + tail;
    assert forall x :: x in head ==> !x.ChownStep?;
    assert forall x :: x in tail ==> !x.ChownStep?;
    if exists i :: 0 <= i < |plan| && plan[i].ChownStep? {
      var i :| 0 <= i < |plan| && plan[i].ChownStep?;
      assert plan[i] in head + c + tail;
    }
    if eff.chown.Some? {
      assert plan[|head|].ChownStep?;
    }
  }

  /** Chmod is issued exactly when the effective mode is truthy. */
  lemma PlanChmodGuard(eff: Options, data: Data, p: Process, target: Path)
    ensures var plan := Plan(eff, data, p, target);
      (exists i :: 0 <= i < |plan| && plan[i].ChmodStep?) <==> Truthy(eff.mode)
  {
    var plan := Plan(eff, data, p, target);
    var head := [OpenStep(OpenMode(eff.mode), p.owner)] + WritePart(eff, data, p) + [FsyncStep] + [CloseStep]
      + ChownPart(eff);
    var m := ChmodPart(eff);
    PlanFlat(eff, data, p, target);
    assert plan == head + m + [RenameStep(target)];
    assert forall x :: x in head ==> !x.ChmodStep?;
    if exists i :: 0 <= i < |plan| && plan[i].ChmodStep? {
      var i :| 0 <= i < |plan| && plan[i].ChmodStep?;
      assert plan[i] in head + m + [RenameStep(target)];
    }
    if Truthy(eff.mode) {
      assert plan[|head|].ChmodStep?;
    }
  }

  /** A planned step carries the arguments the source passes to that call. */
  ghost predicate Fits(x: Step, eff: Options, data: Data, p: Process, target: Path)
  {
    (x.OpenStep? ==> x == OpenStep(OpenMode(eff.mode), p.owner))
    && (x.WriteStep? ==> x.bytes == Content(Payload(data, eff.encoding, p)))
    && (x.ChownStep? ==> eff.chown == Some(x.to))
    && (x.ChmodStep? ==> eff.mode == Bits(x.bits))
    && (x.RenameStep? ==> x.dest == target)
  }

  /** The arguments of the issued calls: the open mode, the bytes written, the
      owner and mode applied, and the rename destination. */
  lemma PlanArguments(eff: Options, data: Data, p: Process, target: Path)
    ensures var plan := Plan(eff, data, p, target);
      forall i :: 0 <= i < |plan| ==> Fits(plan[i], eff, data, p, target)
  {
    var plan := Plan(eff, data, p, target);
    forall i | 0 <= i < |plan| ensures Fits(plan[i], eff, data, p, target) {
      assert plan[i] in plan;
    }
  }

  /** Rename is issued once, as the very last call. */
  lemma RenameOnlyLast(eff: Options, data: Data, p: Process, target: Path)
    ensures var plan := Plan(eff, data, p, target);
      forall i :: 0 <= i < |plan| - 1 ==> !plan[i].RenameStep?
  {
    var plan := Plan(eff, data, p, target);
    PlanOrdered(eff, data, p, target);
    PlanEnds(eff, data, p, target);
    forall i | 0 <= i < |plan| - 1 ensures !plan[i].RenameStep? {
      assert Rank(plan[i]) < Rank(plan[|plan| - 1]);
    }
  }
}
