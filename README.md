# write-file-atomic, modelled in Dafny

This project models the core of `write-file-atomic` (`index.js`). The writer
replaces a file atomically. It writes the new content to a temporary file
beside the target: open, write, fsync, close, then optionally chown and chmod.
It then renames the temporary file onto the target. If any of these calls
fails, it unlinks the temporary file as best it can and reports the original
error.

The filesystem is a map `path -> FileRec(content, mode, uid, gid)`. A per-call
failure oracle (`failing: map<Op, string>`) says which filesystem calls throw
and with which error code. A call that fails changes nothing. The outcome of
`realpath` is a per-call parameter. The stat outcome comes from the map itself:
stat fails when the oracle says so or when nothing is at the path. The
module-level `invocations` counter and the filesystem are the fields of the
class `Writer.AtomicWriter`.

Modules, leaves first:

- `FileSystem` (`filesystem.dfy`): bytes, paths, file records, operations,
  errors, outcomes, and the process facts. The process facts are the pid, the
  hash seed `__filename`, the foreign MurmurHash3 and text encoders, whether
  `process.getuid` exists, and the owner a new file gets.
- `TmpName` (`tmpname.dfy`): `String(n)` for non-negative integers, the
  string the incremental hash consumes, the temp name, and the directory part
  of a path.
- `Attributes` (`attributes.dfy`): the options record, with JavaScript
  truthiness written out, and the defaulting rule `Resolve`.
- `Protocol` (`protocol.dfy`): the list of calls issued for given effective
  options (`Plan`) and the semantics of running such a list (`Exec`,
  `Attempt`). Running stops at the first failure, then cleans up and reports
  that failure's error.
- `AtomicWrite` (`atomic_write.dfy`): one whole call as a function of the
  filesystem before it (`WriteAtomic`), and the lemmas about it: atomicity,
  frame, error precedence, success, and defaulting across calls.
- `Writer` (`writer.dfy`): the class. `WriteFileSync` runs the protocol
  statement by statement and is proved equal to `WriteAtomic`.

The callback/Promise form (`writeFile`, `_writeFile`, `writeFileAsync`,
index.js:19-112) issues the same calls in the same order, with the same
guards, as `writeFileSync` (index.js:114-156), up to the first call of the
caller's callback. One method models both, up to that point.

Behaviour of index.js a caller may not expect:

- `chown: false` does not suppress chown. Like any falsy `chown`, it is
  filled from the target's owner when `process.getuid` exists
  (index.js:44, 133).
- There is no option that skips fsync, no callback when the temp file is
  created, no tolerance of chown/chmod errors, no per-path queue and no
  cleanup at process exit.
- Both entry points return nothing on success.

## Model

| member | source | states |
|---|---|---|
| `TmpName.Decimal` | index.js:14-15 | `String(n)` is a non-empty string of decimal digits, one digit exactly when n < 10 |
| `TmpName.DecimalRoundTrip` | index.js:14-15 | reading the decimal rendering back gives the number, so `String(n)` loses nothing |
| `TmpName.DecimalInjective` | index.js:15 | different counter values are rendered as different strings |
| `TmpName.Hash32` | index.js:13-16 | the hash result is an unsigned 32-bit value |
| `TmpName.HashKeysDistinct` | index.js:10-17 | two different counter values feed the hash two different strings (seed + pid + counter); only a hash collision can make two temp names equal |
| `TmpName.DirPartSlashFreeSuffix` | index.js:12-16 | helper for `TmpNameShape`: appending characters other than '/' keeps the directory part of a path |
| `TmpName.TmpNameShape` | index.js:11-16 | the temp name is the filename, '.', then decimal digits; it differs from the filename and has the same directory part |
| `TmpName.TmpFor` | index.js:11-16 | `getTmpname`'s result for a given counter value; specified by `TmpNameShape` (filename, '.', digits, same directory) and `HashKeysDistinct` (distinct counters hash distinct strings) |
| `Attributes.OrEmpty` | index.js:115 | absent options become `{}`: no mode, no chown, no encoding |
| `Attributes.OpenMode` | index.js:141 | open receives `options.mode` as given; an absent mode gives the default 0o666 (438) |
| `Attributes.EffectiveEncoding` | index.js:145 | an unset (empty) encoding becomes "utf8"; a given one is kept |
| `Attributes.Resolve` | index.js:124-138 | no stat when mode and chown are both truthy, and a failed stat: options as given. After a stat: a falsy mode becomes the target's mode; a falsy chown becomes the target's owner iff `getuid` exists; given values are never overridden; only mode and chown change |
| `FileSystem.StatOf` | index.js:128 | stat succeeds exactly when it is not failing and the path exists, and then reports the path's record |
| `Protocol.Payload` | index.js:142-146 | a Buffer is written verbatim; null/undefined issues no write call; any other value is written as `String(data)` encoded with `EffectiveEncoding` of the options' encoding |
| `Protocol.Cleanup` | index.js:153 | the unlink removes the temp path unless it fails, and touches no other path |
| `Protocol.Apply` | index.js:141-151 | the effect of one call that succeeds; specified through `ExecFrame` (only the temp path and the rename destination change), `ExecFailureKeepsTarget` and `ApplyPlan` (the record the target ends with) |
| `Protocol.StepResult` | index.js:141-151 | one call: it throws and changes nothing when the failure oracle names it, else it takes effect; specified through `ExecSnoc`, `ExecPassIff` and `ExecReportsFirstFailure` |
| `Protocol.Exec` | index.js:141-151 | the try block stops at the first throw; specified by `ExecSnoc`, `ExecPassIff`, `ExecReportsFirstFailure`, `ExecFrame`, `ExecFailureKeepsTarget` and `ExecAllPass` |
| `Protocol.Attempt` | index.js:141-155 | the try block, then on a throw the catch block's unlink and rethrow of the original error; specified through `Cleanup`, `WriteAtomicity` and `WriteErrorPrecedence` |
| `Protocol.ExecSnoc` | index.js:141-151 | one more statement of the try block runs only if nothing has thrown yet |
| `Protocol.ExecPassIff` | index.js:141-151 | a run of calls ends without error iff none of its calls is in the failure oracle (both directions) |
| `Protocol.ExecReportsFirstFailure` | index.js:152-154 | the error that stops a run is the first failing call's own error |
| `Protocol.ExecFrame` | index.js:141-151 | the calls touch only the temp path and the rename destination |
| `Protocol.ExecFailureKeepsTarget` | index.js:141-151 | when only the last call may be a rename and the run fails, the target is as before |
| `Protocol.ExecAllPass` | index.js:141-151 | when no call fails, the filesystem is the calls' effects applied in order |
| `Protocol.Plan` | index.js:141-151 | the calls of the try block for the effective options; specified by `PlanOrdered` (order), `PlanEnds` (open first, rename last), `PlanWriteGuard`, `PlanChownGuard`, `PlanChmodGuard` (which calls are issued) and `PlanArguments` (their arguments) |
| `Protocol.PlanOrdered` | index.js:51-83 | calls follow the order open, write, fsync, close, chown, chmod, rename, each at most once |
| `Protocol.PlanEnds` | index.js:141-151 | open comes first with the effective mode; fsync and close always appear; the last call is the rename onto the target |
| `Protocol.PlanWriteGuard` | index.js:142-146 | the write call is issued iff the data is not null/undefined |
| `Protocol.PlanChownGuard` | index.js:149 | chown is issued iff the effective chown is truthy |
| `Protocol.PlanChmodGuard` | index.js:150 | chmod is issued iff the effective mode is truthy |
| `Protocol.PlanArguments` | index.js:141-151 | every issued call has the source's arguments: the effective open mode, the payload bytes, the effective owner and mode, the resolved target |
| `Protocol.RenameOnlyLast` | index.js:75-81 | rename is issued once, as the last call |
| `Protocol.PrependRanked` | index.js:57-83 | helper for `PlanOrdered`: a call ranked before every later call keeps the list in protocol order |
| `AtomicWrite.ResolvedName` | index.js:116-120 | the path written is the realpath result, else the name given, as in the async form's line 26; specified by `WritePaths` |
| `AtomicWrite.EffectiveOptions` | index.js:124-138 | the options after attribute resolution; specified by `Resolve`, `DefaultsKeepTargetAttributes` and `ModeCarriesOver` |
| `AtomicWrite.WriteAtomic` | index.js:114-156 | one whole `writeFileSync` call; specified by `WritePaths`, `WriteAtomicity`, `WriteFrame`, `WriteErrorPrecedence`, `WriteSuccess` and `WrittenBytes` |
| `AtomicWrite.WritePaths` | index.js:116-121 | the target is the realpath result, or the literal name when realpath fails; the temp path is target + '.' + digits, a different path in the same directory |
| `AtomicWrite.WriteAtomicity` | index.js:123-155 | unless rename succeeds, the target's record (or its absence) is unchanged; after a failure the temp path is gone unless unlink failed |
| `AtomicWrite.WriteFrame` | index.js:141-153 | after any call, only the temp path and the resolved target may differ |
| `AtomicWrite.WriteErrorPrecedence` | index.js:84-87 | the call fails iff an issued call fails, and it then reports the first failing call's error; an unlink error or stat error is never reported |
| `AtomicWrite.ApplyAllConcat` | index.js:141-151 | helper for `ApplyPlan`: running two lists of calls one after the other is running their concatenation |
| `AtomicWrite.ApplyPlanPieces` | index.js:141-151 | helper for `ApplyPlan`: the protocol's effect is the effect of its calls applied one after another |
| `AtomicWrite.ApplyPlan` | index.js:141-151 | with every call succeeding, the target gets the payload, the effective mode and owner (or the temp file's own), and the temp path is gone |
| `AtomicWrite.WriteSuccess` | index.js:93-111 | on success the target holds exactly the encoded data, has the effective mode when truthy and the effective owner when truthy (otherwise those of the temp file as opened), and the temp path no longer exists |
| `AtomicWrite.WrittenBytes` | index.js:142-146 | on success the target holds a Buffer's bytes verbatim, nothing for null/undefined, and otherwise `String(data)` encoded with the caller's encoding or 'utf8' |
| `AtomicWrite.DefaultsKeepTargetAttributes` | index.js:32-48 | with no mode and no chown given, a successful write over an existing target keeps its mode, and keeps its owner when `getuid` exists |
| `AtomicWrite.ModeCarriesOver` | index.js:124-150 | a mode set by one write survives a later successful write that gives no mode |
| `Writer.AtomicWriter.constructor` | index.js:10 | the counter starts at 0 |
| `Writer.AtomicWriter.GetTmpname` | index.js:10-17 | the counter grows by exactly one before it is hashed, and the name is built from the new value |
| `Writer.AtomicWriter.StatSync` | index.js:128 | returns what stat of the path gives |
| `Writer.AtomicWriter.FsCall` | index.js:141-151 | a filesystem call either throws and changes nothing, or takes effect |
| `Writer.AtomicWriter.UnlinkSync` | index.js:153 | removes the temp path unless unlink fails; reports whether it failed |
| `Writer.AtomicWriter.Then` | index.js:141-151 | a statement of the try block runs only while nothing has thrown, and the state follows the call semantics |
| `Writer.AtomicWriter.ResolveAttributes` | index.js:124-138 | stat only when mode or chown is falsy, and fill a copy field by field; the result equals `Resolve` |
| `Writer.AtomicWriter.IssueCalls` | index.js:141-151 | issuing the calls statement by statement gives the same state and error as running the plan |
| `Writer.AtomicWriter.WriteFileSync` | index.js:114-156 | the counter grows by one whatever happens; outcome and new filesystem equal `WriteAtomic`; only the temp path and target change; on failure the target is unchanged and the error is never unlink's; on success the temp path is gone and the target exists |

## Left out

- Node's real filesystem calls (through graceful-fs). The map and failure oracle stand in for them. fsync and close change nothing in the model; they are only places where a failure can happen.
- MurmurHash3 (imurmurhash) and the text encoders (`utf8`, `utf16le`, ...) are foreign code. They are function-valued fields of `Process`. Only the distinctness of hash inputs is proved, not that hash results never collide.
- Callback and Promise scheduling in the async form. Up to its first callback it issues the same calls as the sync form. The interleaving of several async writes is concurrency and is not modelled.
- The async form after its first callback. `.then(function () { callback() }).catch(...)` (index.js:82-88) also catches an exception thrown by the caller's success callback, or the TypeError when no callback was given. It then unlinks the temp path after the rename has succeeded and calls the callback a second time. The model covers the async chain only up to the first callback call, so in the async form rename is not always the last call.
- GetTmpname: `invocations` is a JavaScript Number (index.js:10, 15). Past 2^53 `++invocations` no longer changes its value. The counter here is an unbounded `nat`, so `invocations == old(invocations) + 1` holds for every call, where the source's holds only below 2^53.
- HashKeysDistinct: distinct counter values give distinct hash inputs for the unbounded counter. In the source this holds only for the first 2^53 calls.
- Owner ids are `nat`, so chown's -1 ("leave this id unchanged") cannot be passed.
- A truthy `chown` that is not an `{uid, gid}` object (such as `true` or `{}`). With one, index.js:149 passes `undefined` ids to `chownSync`, which throws a TypeError inside the try block; the catch block then unlinks and rethrows. The model's `chown` is either absent or an owner, so it has no such case.
- The `writeFile(filename, data, callback)` argument shuffle (index.js:20-23), options given as a string, and modes given as strings.
- A falsy `options.mode` other than a number or undefined is treated as unset.
- The async form's `realname || filename` (index.js:26) differs from the sync form only if realpath returns an empty string. Realpath never does that, so `ResolvedName` models both.
- WriteSuccess: the mode it states is the chmod or open argument itself. The process umask and the kernel's masking of file-type bits are not modelled. A `stats.mode` fed back into chmod is kept verbatim.
- Partial writes: `fs.write` is taken to write the whole payload.
- A rename or chmod on a temp path that has disappeared is a no-op in the model, not an ENOENT error. The protocol never does this after a successful open.
- Closing the descriptor when write or fsync fails: the code does not do it, so the model does not claim it.
- The per-path serialization queue, the exit-time cleanup registry, the temp-file-created callback, `fsync: false`, and the tolerance of ENOSYS/EINVAL/EPERM from chown/chmod. The test files expect these, but `index.js` does not implement them.
- The caller's options object is never mutated. The model gets this from value semantics: options are a datatype value, and `ResolveAttributes` fills a copy.
