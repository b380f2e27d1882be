# Dev-mode sync and log engine of `convox start` (generation 2), in Dafny

`convox start` runs an application locally against a rack. In generation 2
it does four things that this project models and proves properties of:

- **Finding what to sync.** It reads each service's Dockerfile and resolves
  the `ADD`/`COPY` instructions into pairs of a local path and a path inside
  the container. While doing so it keeps track of `ENV` and `WORKDIR`, and of
  the environment and working directory of the `FROM` image. It skips
  `--from` stages and `http(s)` sources. It makes the local paths absolute,
  gives directories a trailing slash, and replaces a `.` destination with the
  final working directory. Finally it drops every pair that a later pair
  already covers.
- **Routing log lines.** Each line of the application log is classified as a
  `service` line, a `system` line or something else. It is written under a
  running service's name or dropped. Cursor-positioning escape sequences
  are stripped from service lines.
- **Waiting for a build.** The build is polled once a second until its
  status says it is complete, it failed, or the status is unknown.
- **Syncing changes.** File changes collect in a batch. On each tick the
  batch is pushed to every process of the service, with progress lines.
  Added files are uploaded as a tar stream; removed files are deleted.

Modules (one per file):

| file | module | what |
|---|---|---|
| wrappers.dfy | `Wrappers` | `Option` and `Result` |
| text.dfy | `Text` | `strings.Fields`, `TrimSpace`, `Replace`, `ToUpper` for keywords, `bufio.ScanLines` |
| paths.dfy | `Paths` | `filepath.IsAbs`, `Clean`, `Join` on Unix |
| env.dfy | `EnvSubst` | the `ENV` state and `replaceEnv` |
| options.dfy | `DockerOptions` | the option-stripping loop of `ADD`/`COPY`, on an array |
| sources.dfy | `Sources` | build sources, resolver errors, the host oracles |
| resolver.dfy | `Resolver` | the Dockerfile scan, normalisation and `buildSources` |
| dedup.dfy | `Containment` | the containment filter at the end of `buildSources` |
| logs.dfy | `LogRouter` | the log-line pattern, `stripANSIScreenCommands`, `writeLogs` |
| build.dfy | `BuildWait` | `waitForBuild` |
| sync.dfy | `Sync` | the tick branch of `watchPath`, `handleAdds`, `handleRemoves` |

How the environment is modelled:

- **Oracles.** Everything the code asks of the world is a function passed in
  by the caller. For the resolver that is `docker inspect`, `os.Stat`, the
  working directory and `filepath.Rel`. For the sync step it is the
  provider's `pwd`, upload and delete, `os.Stat`, and `changes.Partition` /
  `changes.Files`.
- **Event sequences.** Loops that wait on channels (`waitForBuild`,
  `watchPath`) read a finite sequence of events, one per turn of their
  `select`. Each such loop is a method with a `while` loop, proved equal to a
  fold over the events. Lemmas then state what the fold does.
- **Imperative parts stay imperative.**
  - The option-stripping loop works in place on an array, with Go's `range`
    semantics. `range` keeps the original length, and `append(parts[:i],
    parts[i+1:]...)` shifts the shared array, so the token after a removed
    option is never looked at, and a trailing option after an earlier
    removal makes the slice expression panic.
  - Normalisation rewrites an array of build sources in place.
  - `replaceEnv`, `stripANSIScreenCommands`, the containment filter and the
    per-process loop of the sync step are loops proved against recursive
    specification functions.
- **Go map order.** `replaceEnv` ranges over a Go map, and its result can
  depend on the order when one key is a prefix of another. The model keeps
  the keys in the order they were first set and substitutes in that order.
  The lemmas that do not mention the order hold for every order.

## Model

| member | source | states |
|---|---|---|
| EnvSubst.ReplaceEnv | pkg/start/gen2.go:771-778 | the loop replaces `${K}` and then `$K` for every variable, in the recorded key order; the result is the specified substitution |
| EnvSubst.SubstituteNoDollar | pkg/start/gen2.go:771-778 | a text with no `$` comes back unchanged, whatever the variables |
| EnvSubst.SubstituteIdempotentWithoutDollar | pkg/start/gen2.go:771-778 | once the result holds no `$`, substituting again changes nothing |
| EnvSubst.SingleBraced | pkg/start/gen2.go:773 | with one variable k=v, `a${k}b` becomes `avb` when a, v and b hold no `$` |
| EnvSubst.SingleBare | pkg/start/gen2.go:774 | with one variable k=v, `a$kb` becomes `avb` (k not starting with `{`) |
| EnvSubst.PortBracedExample | pkg/start/gen2.go:771-778 | with PORT=8080, `/${PORT}/app` gives `/8080/app` |
| EnvSubst.PortBareExample | pkg/start/gen2.go:771-778 | with PORT=8080, `/$PORT/app` gives `/8080/app` too |
| EnvSubst.PortStableExample | pkg/start/gen2.go:771-778 | with PORT=8080, `/8080/app` is left as it is |
| EnvSubst.Env.Set | pkg/start/gen2.go:658 | `env[k] = v` overrides the key's value and keeps every key listed once in the order |
| DockerOptions.StripOptionsInPlace | pkg/start/gen2.go:621-630 | the in-place loop over `parts`, with Go's `range` and `append` semantics, ends in a `--from` skip, a slice panic, or the stripped array prefix |
| DockerOptions.ShiftLeft | pkg/start/gen2.go:627 | `append(parts[:i], parts[i+1:]...)` moves the tokens after i one place left in the shared array and leaves the rest of it as it was |
| DockerOptions.StripIsolated | pkg/start/gen2.go:621-630 | when no two options are adjacent and the last token is not an option, the loop removes exactly the options, or skips the line if one is `--from` |
| DockerOptions.StripFirstOptionFrom | pkg/start/gen2.go:622-625 | when the first option of the line is `--from`, the line is skipped |
| DockerOptions.AdjacentOptionSurvives | pkg/start/gen2.go:621-630 | after a removed option, the next token is not examined: `[I, --a, o2, s, d]` becomes `[I, o2, s, d]` |
| DockerOptions.TrailingOptionPanics | pkg/start/gen2.go:627 | a line `[I, --a, s, --b]` makes the slice expression run past the shortened slice |
| DockerOptions.OptionNameOf | pkg/start/gen2.go:38 | `--name…` yields the run of lower-case letters after `--` |
| DockerOptions.ChmodAfterChownKept | pkg/start/gen2.go:621-630 | `COPY --chown=1:1 --chmod=644 app /app` keeps `--chmod=644` |
| DockerOptions.TrailingLinkPanics | pkg/start/gen2.go:621-630 | `COPY --chown=1 app --link` makes the slice expression panic |
| Resolver.ParseSchemeOf | pkg/start/gen2.go:633 | `scheme:rest` parses to the lower-cased scheme |
| Resolver.ParseSchemeNoColon | pkg/start/gen2.go:633 | a source without `:` parses with no scheme |
| Resolver.Destination | pkg/start/gen2.go:647-651 | the env-substituted destination, joined onto `wd` when `wd` is set and the destination is relative; absolute under an absolute `wd` |
| Resolver.AddCopy | pkg/start/gen2.go:620-655 | an `ADD`/`COPY` line leaves env and wd alone and adds at most one source |
| Resolver.AddCopyAdds | pkg/start/gen2.go:632-653 | a source is added iff the stripped line has more than two tokens and a non-http(s) source; it is `(Join(buildPath, src), Destination(dst))` |
| Resolver.AddCopyFails | pkg/start/gen2.go:627-636 | the line fails iff the option loop panics or the source does not parse as a URL |
| Resolver.FromStageSkipped | pkg/start/gen2.go:622-625 | a `--from` option met by the loop yields no source |
| Resolver.FromAfterOptionSkipped | pkg/start/gen2.go:638-640 | a `--from` left as `parts[1]` after a removed option yields no source |
| Resolver.RemoteSourceSkipped | pkg/start/gen2.go:642-644 | an `http`/`https` source yields no source |
| Resolver.ShortLineSkipped | pkg/start/gen2.go:632 | fewer than three tokens after stripping yield nothing |
| Resolver.EnvOverrides | pkg/start/gen2.go:656-659 | `ENV k v` sets k; a later `ENV k v2` overrides it and changes nothing else |
| Resolver.WorkdirSubstitutes | pkg/start/gen2.go:688-691 | `WORKDIR d` sets wd to d with the variables substituted |
| Resolver.ImageEnvLastWins | pkg/start/gen2.go:673-679 | the image's last `K=V` entry for K decides K's value |
| Resolver.ImageEnvKeepsOthers | pkg/start/gen2.go:673-679 | keys the image does not set keep their value |
| Resolver.FromImage | pkg/start/gen2.go:660-687 | a failing `docker inspect` leaves the state alone; an undecodable env list or a failing workdir inspect is an error |
| Resolver.ScanLine | pkg/start/gen2.go:612-692 | one line of the scan loop equals the specified step |
| Resolver.AddCopyLine | pkg/start/gen2.go:620-655 | an `ADD`/`COPY` line, with the in-place option loop and `replaceEnv`, equals the specified `ADD`/`COPY` step |
| Resolver.FromLine | pkg/start/gen2.go:660-687 | the `FROM` branch, merging the image's `K=V` entries one by one, equals the specified image step |
| Resolver.ScanDockerfile | pkg/start/gen2.go:609-693 | the scan over the Dockerfile's lines equals the fold of the step |
| Resolver.ScanFailsLater | pkg/start/gen2.go:612-693 | the first failing line ends the scan with its error |
| Resolver.AbsPath | pkg/start/gen2.go:696-699 | `filepath.Abs` fails only without a working directory, and gives an absolute, cleaned path |
| Resolver.NormalizeOne | pkg/start/gen2.go:695-715 | a `.` remote becomes the final wd; the local is made absolute and a directory gets a trailing `/` |
| Resolver.NormalizePointwise | pkg/start/gen2.go:695-715 | normalisation treats every source on its own and keeps their number and order |
| Resolver.NormalizeSucceeds | pkg/start/gen2.go:696-704 | normalisation succeeds iff every source's `Abs` and `Stat` succeed |
| Resolver.Normalize | pkg/start/gen2.go:695-715 | the in-place loop over the array equals the specified normalisation, or stops at the first error |
| Resolver.ResolvedSources | pkg/start/gen2.go:591-752 | the result is the uncovered normalised sources, a subsequence ending with the last one, all with absolute locals |
| Resolver.BuildSources | pkg/start/gen2.go:591-752 | the whole resolver equals its specification |
| Containment.Dedup | pkg/start/gen2.go:717-749 | the nested loop equals the specified filter |
| Containment.ScanKeep | pkg/start/gen2.go:722-744 | the inner loop keeps entry i iff no later entry covers it or breaks `Rel` before the end |
| Containment.ScanDrop | pkg/start/gen2.go:722-744 | entry i is dropped iff a later entry j has a prefix local and the same remote or equal `Rel`s, with nothing before j stopping the loop |
| Containment.ScanFail | pkg/start/gen2.go:729-737 | the inner loop fails iff it reaches a prefix pair whose `Rel` fails |
| Containment.ScanCovered | pkg/start/gen2.go:722-744 | an inner loop that does not fail drops entry i iff some later entry covers it |
| Containment.DedupKeepsUncovered | pkg/start/gen2.go:717-749 | a successful filter returns exactly the entries no later entry covers |
| Containment.DedupFailsOnlyOnRel | pkg/start/gen2.go:729-737 | the filter fails iff some pair it reaches makes `Rel` fail |
| Containment.DedupResult | pkg/start/gen2.go:717-749 | the result keeps the input order, is a subsequence of it, and keeps the last entry |
| Containment.DedupSucceeds | pkg/start/gen2.go:729-737 | without `Rel` failures the filter succeeds |
| LogRouter.Parse | pkg/start/gen2.go:37 | a recognised line has a `YYYY-MM-DD` date, an `HH:MM:SS` clock and non-empty, `/`-free kind and name |
| LogRouter.ParseFormat | pkg/start/gen2.go:37 | every well-formed line is recognised with its own groups |
| LogRouter.FormatParse | pkg/start/gen2.go:37 | every recognised line is exactly the text of its groups |
| LogRouter.StripANSIScreenCommands | pkg/start/gen2.go:780-790 | the removal loop equals the specified left-to-right deletion of `ESC[d+;d+H` |
| LogRouter.StripAnsiPlain | pkg/start/gen2.go:784-790 | text without ESC is unchanged |
| LogRouter.StripAnsiSkips | pkg/start/gen2.go:781-786 | a sequence after ESC-free text is deleted and stripping goes on after it |
| LogRouter.StripExample | pkg/start/gen2.go:781-786 | `Hello ESC[1;1H World` becomes `HelloWorld` |
| LogRouter.Route | pkg/start/gen2.go:802-827 | a line goes out only under a running service and only when it is recognised |
| LogRouter.RouteOf | pkg/start/gen2.go:808-827 | service lines go out stripped under the name; system lines unstripped under the instance up to its first `-`; other kinds are dropped |
| LogRouter.RouteAll | pkg/start/gen2.go:797-829 | at most one output per line, every one under a running service |
| LogRouter.WriteLogs | pkg/start/gen2.go:792-829 | the loop over the scanned lines equals the specified routing |
| Text.Lines | pkg/start/gen2.go:797 | the scanner's lines hold no newline |
| Text.LinesCons | pkg/start/gen2.go:797 | a line ending in `\n` is one token, with a final `\r` dropped |
| BuildWait.StatusStep | pkg/start/gen2.go:443-452 | `created`/`running` continue; `complete` ends without error; everything else ends with "build failed" or "unknown build status: s" |
| BuildWait.WaitForBuild | pkg/start/gen2.go:430-455 | the poll loop stops at the first event that ends the wait, with that event's error |
| BuildWait.AwaitFromFirstStop | pkg/start/gen2.go:433-453 | the wait returns at the first event that ends it, and keeps polling iff every event continues it |
| BuildWait.AwaitIgnoresLater | pkg/start/gen2.go:433-453 | events after the wait has returned change nothing |
| BuildWait.CompletesOnThirdPoll | pkg/start/gen2.go:443-447 | `created`, `running`, `complete` ends without error on the third poll |
| BuildWait.FailsAfterPending | pkg/start/gen2.go:448-449 | pending polls then `failed` end with "build failed" |
| BuildWait.UnknownStatusFails | pkg/start/gen2.go:450-451 | any other status ends with "unknown build status: " and the status |
| BuildWait.CancelEndsQuietly | pkg/start/gen2.go:435-436 | cancelling ends the wait without an error |
| Sync.TarEntries | pkg/start/gen2.go:350-368 | at most one entry per add; under an absolute remote every entry name is absolute |
| Sync.TarEntriesAllPresent | pkg/start/gen2.go:350-368 | with every file present, the entries are `Join(remote, path)`, one per add, in order |
| Sync.TarEntriesFails | pkg/start/gen2.go:353-361 | the upload fails iff `os.Stat` fails on a file for a reason other than its absence |
| Sync.UploadTo | pkg/start/gen2.go:340-393 | at most one request, an upload for the process, whose error is the call's error |
| Sync.HandleAdds | pkg/start/gen2.go:323-338 | an empty list makes no request and returns nil; `pwd` is asked iff the list is non-empty and the remote is relative |
| Sync.HandleAddsEntries | pkg/start/gen2.go:328-368 | the upload carries `Join(dir, path)` per add, where dir is the remote or the process's `pwd` joined with it |
| Sync.HandleRemoves | pkg/start/gen2.go:396-402 | an empty list makes no request and returns nil; otherwise one delete of the changes' files |
| Sync.Progress | pkg/start/gen2.go:526-533 | more than three changes give one summary line with the count; one to three give a line per file; none give none |
| Sync.Shown | pkg/start/gen2.go:528 | an empty remote is shown as `.` |
| Sync.FlushProcessLines | pkg/start/gen2.go:525-550 | per process: an empty side makes no request, and the add lines follow the threshold |
| Sync.Flush | pkg/start/gen2.go:522-551 | the loop over the processes equals the specified flush |
| Sync.WatchPath | pkg/start/gen2.go:509-553 | the event loop equals the fold of the specified step |
| Sync.WatchStopped | pkg/start/gen2.go:511-512 | after cancellation, later events change nothing |
| Sync.EmptyTickIdle | pkg/start/gen2.go:516-518 | a tick with an empty batch does nothing |
| Sync.ListFailureKeepsBatch | pkg/start/gen2.go:520-524 | when the process listing fails, the batch is kept, the error is written, and nothing is sent |
| Sync.FlushEmptiesBatch | pkg/start/gen2.go:520-552 | after a listing that succeeds, the batch is empty, even with no process running |
| Sync.ChangesCollect | pkg/start/gen2.go:513-514 | changes collect in the batch in arrival order |

## Left out

- Process-level effects are not modelled; their results are inputs:
  - I/O, goroutines, channels, `time.Tick` and `time.Sleep`;
  - the `prefix.Writer`: output is a sequence of records, and `Sync.Render`
    gives the text of a sync line.
- `Start2`, `buildCreate`, `buildCreateExternal`, `streamLogs`,
  `handleErrors`, `stopProcess` and `watchChanges`: these are orchestration of
  provider calls and goroutines. `buildDockerfile`, `buildIgnores` and the
  manifest lookup are not part of this model either; the Dockerfile reaches
  the resolver as text, or as "image only" / "unavailable".
- `changes.Partition`, `changes.Files` and `changes.Watch` belong to another
  package. The first two are functions passed in, so nothing is proved about
  how adds and removes are reconciled.
- `url.Parse` is modelled only as far as the resolver depends on it:
  - the scheme and its lower-casing;
  - a `:` at the start, and a `:` in a first segment without a scheme;
  - control characters and the `#` fragment.
  Host, port and percent-escape errors are not modelled.
- `filepath.Rel` and `os.Stat` are oracles. `filepath.Abs` is `Clean` of a
  join with the working directory. The error texts of the resolver
  (`errors.WithStack` wrapping) are the `BuildError` cases, not strings.
- `bufio.Scanner` buffer limits and its read errors (the "scan error" line of
  `writeLogs`) are not modelled. Neither is the `ctx.Done()` check between
  log lines: the model routes every line.
- The startup of `watchPath` before its loop is not modelled: `filepath.Abs`,
  `os.Getwd`, `filepath.Rel` and the "starting sync" line.
- Sync.HandleAdds: does not model the tar stream itself. That covers file
  modes, sizes and contents, the `os.Open` / `io.Copy` / `Close` errors, and
  the upload goroutine left waiting when `os.Stat` fails.
- The sync oracles answer the same way every time it is asked. A
  provider whose answers change between ticks is modelled by the per-tick
  process listing only.
- BuildWait.WaitForBuild and Sync.WatchPath run over a finite sequence of
  events. The Go loops run until cancelled; the model reports where they
  stand when the events run out.
