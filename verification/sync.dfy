/** The sync step of `watchPath` (pkg/start/gen2.go:475-555) and the two
    provider helpers it calls, `handleAdds` (323-394) and `handleRemoves`
    (396-402).

    Changes reported under a build source's local directory collect in a
    batch. On each tick a non-empty batch is split into adds and removes and
    pushed to every running process of the service, with progress lines
    written under the "convox" prefix; the batch is then emptied. When the
    process listing fails, the batch waits for the next tick.

    The provider (`ProcessList`, `ProcessExec` of `pwd`, `FilesUpload`,
    `FilesDelete`), `os.Stat` and the `changes` package's `Partition` and
    `Files` are the environment, passed in as functions; the tick, the change
    channel and the context are a sequence of events. */
module Sync {
  import opened Wrappers
  import opened Text
  import opened Paths

  /** A change reported by the watcher: the directory it was seen under and
      the path relative to that directory. */
  datatype Change = Change(operation: string, base: string, path: string)

  /** What `os.Stat` says about a local file. */
  datatype FileState = Present | Missing | StatFailed(message: string)

  /** The environment of one watch task. */
  datatype Provider = Provider(
    pwd: string -> Result<string, string>,              // output of `pwd` run in a process
    stat: string -> FileState,
    upload: (string, seq<string>) -> Option<string>,    // error of `FilesUpload` for the tar entries
    delete: (string, seq<string>) -> Option<string>,    // error of `FilesDelete`
    partition: seq<Change> -> (seq<Change>, seq<Change>),
    files: seq<Change> -> seq<string>)

  /** A request made to the provider. */
  datatype Call =
    | Pwd(pid: string)
    | Upload(pid: string, entries: seq<string>)
    | Delete(pid: string, paths: seq<string>)

  /** The requests a helper made, and the error it returned. */
  datatype Outcome = Outcome(calls: seq<Call>, err: Option<string>)

  /** The names of the tar entries written for `adds`: each file that still
      exists goes in under `remote`; a file gone in the meantime is skipped;
      any other `os.Stat` error ends the upload with that error. */
  function TarEntries(remote: string, adds: seq<Change>, stat: string -> FileState): (r: Result<seq<string>, string>)
    ensures r.Success? ==> |r.value| <= |adds|
    ensures r.Success? && IsAbs(remote) ==> forall k :: 0 <= k < |r.value| ==> IsAbs(r.value[k])
  {
    if adds == [] then Success([])
    else
      var a := adds[0];
      var rest := TarEntries(remote, adds[1..], stat);
      match stat(Join(a.base, a.path))
      case Missing => rest
      case StatFailed(m) => Failure(m)
      case Present =>
        if rest.Failure? then rest else Success([Join(remote, a.path)] + rest.value)
  }

  /** When every file exists, there is one entry per add, in order. */
  lemma {:induction false} TarEntriesAllPresent(remote: string, adds: seq<Change>, stat: string -> FileState)
    requires forall k :: 0 <= k < |adds| ==> stat(Join(adds[k].base, adds[k].path)) == Present
    ensures TarEntries(remote, adds, stat).Success?
    ensures |TarEntries(remote, adds, stat).value| == |adds|
    ensures forall k :: 0 <= k < |adds| ==> TarEntries(remote, adds, stat).value[k] == Join(remote, adds[k].path)
  {
    if adds != [] {
      assert stat(Join(adds[0].base, adds[0].path)) == Present;
      TarEntriesAllPresent(remote, adds[1..], stat);
    }
  }

  /** `os.Stat` fails on the file of `a` for a reason other than its
      absence. */
  predicate StatBroken(a: Change, stat: string -> FileState)
  {
    stat(Join(a.base, a.path)).StatFailed?
  }

  /** Building the entries fails exactly when `os.Stat` fails on one of the
      files for a reason other than its absence. */
  lemma {:induction false} TarEntriesFails(remote: string, adds: seq<Change>, stat: string -> FileState)
    ensures TarEntries(remote, adds, stat).Failure? <==> exists k :: 0 <= k < |adds| && StatBroken(adds[k], stat)
  {
    if adds != [] {
      var rest := adds[1..];
      TarEntriesFails(remote, rest, stat);
      assert forall k :: 0 < k < |adds| ==> adds[k] == rest[k - 1];
      if StatBroken(adds[0], stat) {
        assert TarEntries(remote, adds, stat).Failure?;
      } else if exists k :: 0 <= k < |rest| && StatBroken(rest[k], stat) {
        var k :| 0 <= k < |rest| && StatBroken(rest[k], stat);
        assert StatBroken(adds[k + 1], stat);
      } else {
        assert forall k :: 0 <= k < |adds| ==> !StatBroken(adds[k], stat);
      }
    }
  }

  /** The upload once the remote directory is known. */
  function UploadTo(pid: string, remote: string, adds: seq<Change>, p: Provider): (o: Outcome)
    ensures |o.calls| <= 1
    ensures forall c :: c in o.calls ==> c.Upload? && c.pid == pid && o.err == p.upload(pid, c.entries)
  {
    match TarEntries(remote, adds, p.stat)
    case Failure(e) => Outcome([], Some(e))
    case Success(names) => Outcome([Upload(pid, names)], p.upload(pid, names))
  }

  /** `handleAdds`: nothing to add means no request and no error; a relative
      remote directory is taken relative to the working directory the
      process reports. */
  function HandleAdds(pid: string, remote: string, adds: seq<Change>, p: Provider): (o: Outcome)
    ensures adds == [] ==> o == Outcome([], None)
    ensures |o.calls| <= 2
    ensures Pwd(pid) in o.calls <==> adds != [] && !IsAbs(remote)
    ensures forall c :: c in o.calls ==> c.pid == pid && !c.Delete?
    ensures forall c :: c in o.calls && c.Upload? ==> o.err == p.upload(pid, c.entries)
  {
    if adds == [] then Outcome([], None)
    else if IsAbs(remote) then UploadTo(pid, remote, adds, p)
    else
      match p.pwd(pid)
      case Failure(e) => Outcome([Pwd(pid)], Some(pid + " pwd: " + e))
      case Success(out) =>
        var up := UploadTo(pid, Join(TrimSpace(out), remote), adds, p);
        Outcome([Pwd(pid)] + up.calls, up.err)
  }

  /** With every file present, the upload carries one entry per add, named
      by joining the resolved remote directory and the change's path. */
  lemma HandleAddsEntries(pid: string, remote: string, adds: seq<Change>, p: Provider)
    requires adds != []
    requires forall k :: 0 <= k < |adds| ==> p.stat(Join(adds[k].base, adds[k].path)) == Present
    ensures IsAbs(remote) ==>
              var names := seq(|adds|, k requires 0 <= k < |adds| => Join(remote, adds[k].path));
              HandleAdds(pid, remote, adds, p) == Outcome([Upload(pid, names)], p.upload(pid, names))
    ensures !IsAbs(remote) && p.pwd(pid).Success? ==>
              var dir := Join(TrimSpace(p.pwd(pid).value), remote);
              var names := seq(|adds|, k requires 0 <= k < |adds| => Join(dir, adds[k].path));
              HandleAdds(pid, remote, adds, p) == Outcome([Pwd(pid), Upload(pid, names)], p.upload(pid, names))
  {
    if IsAbs(remote) {
      UploadAll(pid, remote, adds, p);
    } else if p.pwd(pid).Success? {
      UploadAll(pid, Join(TrimSpace(p.pwd(pid).value), remote), adds, p);
    }
  }

  lemma UploadAll(pid: string, dir: string, adds: seq<Change>, p: Provider)
    requires forall k :: 0 <= k < |adds| ==> p.stat(Join(adds[k].base, adds[k].path)) == Present
    ensures var names := seq(|adds|, k requires 0 <= k < |adds| => Join(dir, adds[k].path));
            UploadTo(pid, dir, adds, p) == Outcome([Upload(pid, names)], p.upload(pid, names))
  {
    EntriesNamed(dir, adds, p.stat);
  }

  lemma EntriesNamed(dir: string, adds: seq<Change>, stat: string -> FileState)
    requires forall k :: 0 <= k < |adds| ==> stat(Join(adds[k].base, adds[k].path)) == Present
    ensures TarEntries(dir, adds, stat) == Success(seq(|adds|, k requires 0 <= k < |adds| => Join(dir, adds[k].path)))
  {
    TarEntriesAllPresent(dir, adds, stat);
    var names := seq(|adds|, k requires 0 <= k < |adds| => Join(dir, adds[k].path));
    assert TarEntries(dir, adds, stat).value == names;
  }

  /** `handleRemoves`: nothing to remove means no request and no error;
      otherwise one delete request for the changes' files. */
  function HandleRemoves(pid: string, removes: seq<Change>, p: Provider): (o: Outcome)
    ensures removes == [] <==> o.calls == []
    ensures removes == [] ==> o.err == None
    ensures removes != [] ==> o.calls == [Delete(pid, p.files(removes))] && o.err == p.delete(pid, p.files(removes))
  {
    if removes == [] then Outcome([], None)
    else
      var paths := p.files(removes);
      Outcome([Delete(pid, paths)], p.delete(pid, paths))
  }

  datatype Direction = Adding | Removing

  /** A line written under the "convox" prefix. */
  datatype Notice =
    | ListFailed(message: string)
    | Summary(dir: Direction, count: nat, remote: string, service: string)
    | PerFile(dir: Direction, path: string, remote: string, service: string)
    | AddFailed(message: string)
    | RemoveFailed(message: string)

  function DigitChar(d: nat): char
    requires d < 10
  {
    "0123456789"[d]
  }

  /** `%d` of a non-negative count. */
  function Decimal(n: nat): string
  {
    if n < 10 then [DigitChar(n)] else Decimal(n / 10) + [DigitChar(n % 10)]
  }

  /** The text of a notice. */
  function Render(n: Notice): string
  {
    match n
    case ListFailed(e) => "sync error: " + e + "\n"
    case Summary(Adding, c, r, s) =>
      "sync: " + Decimal(c) + " files to <dir>" + r + "</dir> on <service>" + s + "</service>\n"
    case PerFile(Adding, path, r, s) =>
      "sync: <dir>" + path + "</dir> to <dir>" + r + "</dir> on <service>" + s + "</service>\n"
    case AddFailed(e) => "sync add error: " + e + "\n"
    case Summary(Removing, c, r, s) =>
      "remove: " + Decimal(c) + " files from <dir>" + r + "</dir> to <service>" + s + "</service>\n"
    case PerFile(Removing, path, r, s) =>
      "remove: <dir>" + path + "</dir> from <dir>" + r + "</dir> on <service>" + s + "</service>\n"
    case RemoveFailed(e) => "sync remove error: " + e + "\n"
  }

  /** `common.CoalesceString(bs.Remote, ".")`: the remote directory as the
      progress lines show it. */
  function Shown(remote: string): (r: string)
    ensures r != []
    ensures remote != [] ==> r == remote
  {
    if remote == [] then "." else remote
  }

  /** The progress lines for one process: more than three changes are
      summarised in one line that counts them; one to three get a line each,
      naming the file; none get no line. */
  function Progress(dir: Direction, cs: seq<Change>, remote: string, service: string): (ns: seq<Notice>)
    ensures |ns| == if |cs| > 3 then 1 else |cs|
    ensures |cs| > 3 ==> ns[0] == Summary(dir, |cs|, remote, service)
    ensures |cs| <= 3 ==> forall k :: 0 <= k < |cs| ==> ns[k] == PerFile(dir, cs[k].path, remote, service)
  {
    if |cs| > 3 then [Summary(dir, |cs|, remote, service)]
    else seq(|cs|, k requires 0 <= k < |cs| => PerFile(dir, cs[k].path, remote, service))
  }

  /** What a flush wrote and requested. */
  datatype Flushed = Flushed(notices: seq<Notice>, calls: seq<Call>)

  /** The body of the loop over the processes, for one process. */
  function FlushProcess(pid: string, adds: seq<Change>, removes: seq<Change>, remote: string, service: string, p: Provider): Flushed
  {
    var a := HandleAdds(pid, remote, adds, p);
    var r := HandleRemoves(pid, removes, p);
    Flushed(
      Progress(Adding, adds, Shown(remote), service) + (if a.err.Some? then [AddFailed(a.err.value)] else [])
        + Progress(Removing, removes, Shown(remote), service) + (if r.err.Some? then [RemoveFailed(r.err.value)] else []),
      a.calls + r.calls)
  }

  /** The loop over the processes `pids`, in order. */
  function FlushAll(pids: seq<string>, adds: seq<Change>, removes: seq<Change>, remote: string, service: string, p: Provider): (f: Flushed)
    ensures pids == [] ==> f == Flushed([], [])
  {
    if pids == [] then Flushed([], [])
    else
      var f := FlushAll(pids[..|pids| - 1], adds, removes, remote, service, p);
      var g := FlushProcess(pids[|pids| - 1], adds, removes, remote, service, p);
      Flushed(f.notices + g.notices, f.calls + g.calls)
  }

  /** One turn of the `select`. */
  datatype Event =
    | Cancelled                                   // `<-ctx.Done()`
    | Changed(change: Change)                     // a change from the watcher
    | Tick(listing: Result<seq<string>, string>)  // a tick, with what `ProcessList` answered

  /** The state of the watch loop: the pending batch, everything written and
      requested so far, and whether the loop has returned. */
  datatype Watcher = Watcher(batch: seq<Change>, notices: seq<Notice>, calls: seq<Call>, stopped: bool)

  const Idle := Watcher([], [], [], false)

  function WatchStep(w: Watcher, e: Event, remote: string, service: string, p: Provider): Watcher
  {
    if w.stopped then w
    else match e
      case Cancelled => w.(stopped := true)
      case Changed(c) => w.(batch := w.batch + [c])
      case Tick(listing) =>
        if w.batch == [] then w
        else match listing
          case Failure(err) => w.(notices := w.notices + [ListFailed(err)])
          case Success(pids) =>
            var (adds, removes) := p.partition(w.batch);
            var f := FlushAll(pids, adds, removes, remote, service, p);
            Watcher([], w.notices + f.notices, w.calls + f.calls, false)
  }

  /** The loop run over `events`. */
  function Watch(events: seq<Event>, remote: string, service: string, p: Provider): Watcher
  {
    if events == [] then Idle
    else WatchStep(Watch(events[..|events| - 1], remote, service, p), events[|events| - 1], remote, service, p)
  }

  /** Once the loop has returned, later events change nothing. */
  lemma {:induction false} WatchStopped(events: seq<Event>, n: nat, remote: string, service: string, p: Provider)
    requires n <= |events|
    requires Watch(events[..n], remote, service, p).stopped
    ensures Watch(events, remote, service, p) == Watch(events[..n], remote, service, p)
    decreases |events| - n
  {
    if n < |events| {
      assert events[..n + 1][..n] == events[..n];
      WatchStopped(events, n + 1, remote, service, p);
    } else {
      assert events[..n] == events;
    }
  }

  /** The `switch` that writes the progress lines for one side. */
  method WriteProgress(dir: Direction, cs: seq<Change>, shown: string, service: string) returns (ns: seq<Notice>)
    ensures ns == Progress(dir, cs, shown, service)
  {
    ns := [];
    if |cs| > 3 {
      ns := [Summary(dir, |cs|, shown, service)];
    } else if |cs| > 0 {
      for k := 0 to |cs|
        invariant |ns| == k
        invariant forall m :: 0 <= m < k ==> ns[m] == PerFile(dir, cs[m].path, shown, service)
      {
        ns := ns + [PerFile(dir, cs[k].path, shown, service)];
      }
    }
  }

  /** The body of the loop over the processes. */
  method FlushOne(pid: string, adds: seq<Change>, removes: seq<Change>, remote: string, service: string, p: Provider)
    returns (notices: seq<Notice>, calls: seq<Call>)
    ensures Flushed(notices, calls) == FlushProcess(pid, adds, removes, remote, service, p)
  {
    var shown := Shown(remote);
    var addLines := WriteProgress(Adding, adds, shown, service);
    var a := HandleAdds(pid, remote, adds, p);
    var addError: seq<Notice> := [];
    if a.err.Some? {
      addError := [AddFailed(a.err.value)];
    }
    var removeLines := WriteProgress(Removing, removes, shown, service);
    var r := HandleRemoves(pid, removes, p);
    var removeError: seq<Notice> := [];
    if r.err.Some? {
      removeError := [RemoveFailed(r.err.value)];
    }
    notices := addLines + addError + removeLines + removeError;
    calls := a.calls + r.calls;
  }

  /** The tick branch, with the list of processes the provider returned. */
  method Flush(batch: seq<Change>, pids: seq<string>, remote: string, service: string, p: Provider)
    returns (notices: seq<Notice>, calls: seq<Call>)
    ensures Flushed(notices, calls) == FlushAll(pids, p.partition(batch).0, p.partition(batch).1, remote, service, p)
  {
    var (adds, removes) := p.partition(batch);
    notices, calls := [], [];
    for j := 0 to |pids|
      invariant Flushed(notices, calls) == FlushAll(pids[..j], adds, removes, remote, service, p)
    {
      var ns, cs := FlushOne(pids[j], adds, removes, remote, service, p);
      notices, calls := notices + ns, calls + cs;
      assert pids[..j + 1][..j] == pids[..j];
    }
    assert pids[..|pids|] == pids;
  }

  /** `watchPath` from its loop on, over the events the environment
      delivers: what it wrote and requested, and the batch still pending
      when the events run out or the context is cancelled. */
  method WatchPath(events: seq<Event>, remote: string, service: string, p: Provider)
    returns (notices: seq<Notice>, calls: seq<Call>, chgs: seq<Change>)
    ensures var w := Watch(events, remote, service, p);
            notices == w.notices && calls == w.calls && chgs == w.batch
  {
    notices, calls, chgs := [], [], [];
    var i := 0;
    while i < |events|
      invariant i <= |events|
      invariant Watch(events[..i], remote, service, p) == Watcher(chgs, notices, calls, false)
      decreases |events| - i
    {
      assert events[..i + 1][..i] == events[..i];
      match events[i] {
        case Cancelled =>
          WatchStopped(events, i + 1, remote, service, p);
          return;
        case Changed(c) =>
          chgs := chgs + [c];
        case Tick(listing) =>
          if chgs != [] {
            match listing {
              case Failure(err) =>
                notices := notices + [ListFailed(err)];
              case Success(pids) =>
                var ns, cs := Flush(chgs, pids, remote, service, p);
                notices, calls := notices + ns, calls + cs;
                chgs := [];
            }
          }
      }
      i := i + 1;
    }
    assert events[..i] == events;
  }

  /** A tick with an empty batch does nothing. */
  lemma EmptyTickIdle(w: Watcher, listing: Result<seq<string>, string>, remote: string, service: string, p: Provider)
    requires w.batch == []
    ensures WatchStep(w, Tick(listing), remote, service, p) == w
  {
  }

  /** When the process listing fails, the batch is kept for the next tick,
      the error is written, and no request is made. */
  lemma ListFailureKeepsBatch(w: Watcher, err: string, remote: string, service: string, p: Provider)
    requires !w.stopped && w.batch != []
    ensures var w' := WatchStep(w, Tick(Failure(err)), remote, service, p);
            w'.batch == w.batch && w'.calls == w.calls && w'.notices == w.notices + [ListFailed(err)]
  {
  }

  /** After a flush past the process listing the batch is empty, even when
      no process is running, and every process received its requests. */
  lemma FlushEmptiesBatch(w: Watcher, pids: seq<string>, remote: string, service: string, p: Provider)
    requires !w.stopped && w.batch != []
    ensures var w' := WatchStep(w, Tick(Success(pids)), remote, service, p);
            var (adds, removes) := p.partition(w.batch);
            && w'.batch == []
            && w'.calls == w.calls + FlushAll(pids, adds, removes, remote, service, p).calls
            && (pids == [] ==> w'.notices == w.notices && w'.calls == w.calls)
  {
  }

  /** The loop run over one more event. */
  lemma WatchSnoc(events: seq<Event>, e: Event, remote: string, service: string, p: Provider)
    ensures Watch(events + [e], remote, service, p) == WatchStep(Watch(events, remote, service, p), e, remote, service, p)
  {
    assert (events + [e])[..|events|] == events;
  }

  /** The events that report the changes `cs`, one after another. */
  function ChangeEvents(cs: seq<Change>): seq<Event>
  {
    if cs == [] then [] else ChangeEvents(cs[..|cs| - 1]) + [Changed(cs[|cs| - 1])]
  }

  /** A reported change joins the end of the batch. */
  lemma CollectOne(events: seq<Event>, c: Change, remote: string, service: string, p: Provider)
    requires !Watch(events, remote, service, p).stopped
    ensures var w := Watch(events, remote, service, p);
            Watch(events + [Changed(c)], remote, service, p) == w.(batch := w.batch + [c])
  {
    WatchSnoc(events, Changed(c), remote, service, p);
  }

  /** Changes collect in the batch in the order they arrive. */
  lemma {:induction false} ChangesCollect(events: seq<Event>, cs: seq<Change>, remote: string, service: string, p: Provider)
    requires !Watch(events, remote, service, p).stopped
    ensures var w := Watch(events, remote, service, p);
            Watch(events + ChangeEvents(cs), remote, service, p) == w.(batch := w.batch + cs)
    decreases |cs|
  {
    if cs == [] {
      assert events + ChangeEvents(cs) == events;
    } else {
      var w := Watch(events, remote, service, p);
      var init, last := cs[..|cs| - 1], cs[|cs| - 1];
      var front := events + ChangeEvents(init);
      ChangesCollect(events, init, remote, service, p);
      ChangeEventsSnoc(events, cs);
      CollectOne(front, last, remote, service, p);
      BatchSnoc(w, Watch(front, remote, service, p), cs);
    }
  }

  lemma ChangeEventsSnoc(events: seq<Event>, cs: seq<Change>)
    requires cs != []
    ensures events + ChangeEvents(cs) == (events + ChangeEvents(cs[..|cs| - 1])) + [Changed(cs[|cs| - 1])]
  {
    var init, e := ChangeEvents(cs[..|cs| - 1]), [Changed(cs[|cs| - 1])];
    assert ChangeEvents(cs) == init + e;
    assert events + (init + e) == (events + init) + e;
  }

  lemma BatchSnoc(w: Watcher, w1: Watcher, cs: seq<Change>)
    requires cs != [] && w1 == w.(batch := w.batch + cs[..|cs| - 1])
    ensures w1.(batch := w1.batch + [cs[|cs| - 1]]) == w.(batch := w.batch + cs)
  {
    assert (w.batch + cs[..|cs| - 1]) + [cs[|cs| - 1]] == w.batch + cs;
  }

  /** For one process, the lines written about its adds: one summary for more
      than three, one per file for one to three, none for none; and an empty
      side makes no request. */
  lemma FlushProcessLines(pid: string, adds: seq<Change>, removes: seq<Change>, remote: string, service: string, p: Provider)
    ensures var f := FlushProcess(pid, adds, removes, remote, service, p);
            && (adds == [] && removes == [] ==> f == Flushed([], []))
            && (adds == [] ==> forall c :: c in f.calls ==> c.Delete?)
            && (removes == [] ==> forall c :: c in f.calls ==> !c.Delete?)
            && (|adds| > 3 ==> f.notices[0] == Summary(Adding, |adds|, Shown(remote), service))
            && (0 < |adds| <= 3 ==> forall k :: 0 <= k < |adds| ==> f.notices[k] == PerFile(Adding, adds[k].path, Shown(remote), service))
  {
  }
}
