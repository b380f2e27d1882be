/** `buildSources` (pkg/start/gen2.go:591-752): reads a service's Dockerfile
    line by line, keeping the `ENV` variables and the working directory seen
    so far, turns every `ADD`/`COPY` of a local source into a (local, remote)
    pair, makes the local paths absolute, resolves `.` destinations to the
    final working directory, and finally drops the pairs a later pair already
    covers (module `Containment`). */
module Resolver {
  import opened Wrappers
  import opened Text
  import opened Paths
  import opened EnvSubst
  import opened DockerOptions
  import opened Sources
  import opened Containment

  // ---------------------------------------------------------------------
  // `url.Parse(parts[1])`, as far as the resolver depends on it: whether it
  // fails, and the lower-cased scheme.

  predicate IsAsciiLetter(c: char)
  {
    'a' <= c <= 'z' || 'A' <= c <= 'Z'
  }

  predicate IsSchemeChar(c: char)
  {
    IsAsciiLetter(c) || '0' <= c <= '9' || c == '+' || c == '-' || c == '.'
  }

  /** The control characters `url.Parse` refuses. */
  predicate IsControl(c: char)
  {
    c < ' ' || c == '\U{007F}'
  }

  /** The scan for a scheme in `u` from index `i`: letters (and, after the
      first character, digits, '+', '-', '.') up to a ':'. Some([]) means the
      text has no scheme; None is the "missing protocol scheme" error of a
      ':' in first place. */
  function SchemeFrom(u: string, i: nat): (r: Option<string>)
    requires i <= |u|
    ensures r.None? <==> i == 0 && u != [] && u[0] == ':'
    ensures r.Some? && r.value != [] ==>
              && i <= |r.value| < |u| && r.value == u[..|r.value|] && u[|r.value|] == ':'
              && (forall k :: i <= k < |r.value| ==> IsSchemeChar(u[k]))
              && (i == 0 ==> IsAsciiLetter(u[0]))
    decreases |u| - i
  {
    if i == |u| then Some([])
    else if IsAsciiLetter(u[i]) then SchemeFrom(u, i + 1)
    else if IsSchemeChar(u[i]) then (if i == 0 then Some([]) else SchemeFrom(u, i + 1))
    else if u[i] == ':' then (if i == 0 then None else Some(u[..i]))
    else Some([])
  }

  function LowerAscii(s: string): (r: string)
    ensures |r| == |s|
    ensures forall k :: 0 <= k < |s| ==> r[k] == if 'A' <= s[k] <= 'Z' then (s[k] as int + 32) as char else s[k]
  {
    if s == [] then []
    else [if 'A' <= s[0] <= 'Z' then (s[0] as int + 32) as char else s[0]] + LowerAscii(s[1..])
  }

  /** `url.Parse(raw)`: None when it fails, otherwise the lower-cased scheme
      (empty when there is none). The fragment after '#' is cut off first; a
      control character, a leading ':', or, without a scheme, a ':' in the
      first path segment (before any '/' or '?') is an error. */
  function ParseScheme(raw: string): Option<string>
  {
    var u := Before(raw, {'#'});
    if exists k :: 0 <= k < |u| && IsControl(u[k]) then None
    else match SchemeFrom(u, 0)
      case None => None
      case Some(scheme) =>
        if scheme == [] && ':' in Before(u, {'/', '?'}) then None
        else Some(LowerAscii(scheme))
  }

  /** A source written `scheme:rest` has that scheme, lower-cased. */
  lemma ParseSchemeOf(scheme: string, rest: string)
    requires scheme != [] && IsAsciiLetter(scheme[0])
    requires forall k :: 0 <= k < |scheme| ==> IsSchemeChar(scheme[k])
    requires '#' !in rest && forall k :: 0 <= k < |rest| ==> !IsControl(rest[k])
    ensures ParseScheme(scheme + ":" + rest) == Some(LowerAscii(scheme))
  {
    SchemeRawChars(scheme, rest);
    SchemeFromRaw(scheme, rest);
    ParseSchemeClean(scheme + ":" + rest, scheme);
  }

  /** The scan of `scheme:rest` stops at the ':' and finds `scheme`. */
  lemma SchemeFromRaw(scheme: string, rest: string)
    requires scheme != [] && IsAsciiLetter(scheme[0])
    requires forall k :: 0 <= k < |scheme| ==> IsSchemeChar(scheme[k])
    ensures SchemeFrom(scheme + ":" + rest, 0) == Some(scheme)
  {
    var raw := scheme + ":" + rest;
    var n := |scheme|;
    assert raw[n] == ':';
    SchemeOfPrefix(raw, n, 0);
    assert raw[..n] == scheme;
  }

  /** No character of `scheme:rest` is a '#' or a control character. */
  lemma SchemeRawChars(scheme: string, rest: string)
    requires forall k :: 0 <= k < |scheme| ==> IsSchemeChar(scheme[k])
    requires '#' !in rest && forall k :: 0 <= k < |rest| ==> !IsControl(rest[k])
    ensures var raw := scheme + ":" + rest;
            forall k :: 0 <= k < |raw| ==> raw[k] != '#' && !IsControl(raw[k])
  {
    var raw := scheme + ":" + rest;
    forall k | 0 <= k < |raw| ensures raw[k] != '#' && !IsControl(raw[k]) {
      if k < |scheme| {
        assert raw[k] == scheme[k];
      } else if k > |scheme| {
        assert raw[k] == rest[k - |scheme| - 1];
      }
    }
  }

  /** Text free of '#' and control characters whose scan finds a scheme
      parses to that scheme, lower-cased. */
  lemma ParseSchemeClean(raw: string, scheme: string)
    requires forall k :: 0 <= k < |raw| ==> raw[k] != '#' && !IsControl(raw[k])
    requires scheme != [] && SchemeFrom(raw, 0) == Some(scheme)
    ensures ParseScheme(raw) == Some(LowerAscii(scheme))
  {
    BeforeNone(raw, {'#'});
    assert !exists k :: 0 <= k < |raw| && IsControl(raw[k]);
  }

  lemma {:induction false} SchemeOfPrefix(u: string, n: nat, i: nat)
    requires i <= n < |u| && u[n] == ':'
    requires forall k :: i <= k < n ==> IsSchemeChar(u[k])
    requires n > 0 && IsAsciiLetter(u[0])
    ensures SchemeFrom(u, i) == Some(u[..n])
    decreases n - i
  {
    if i < n {
      SchemeOfPrefix(u, n, i + 1);
    }
  }

  /** A source without ':' parses and has no scheme. */
  lemma {:induction false} ParseSchemeNoColon(raw: string)
    requires ':' !in raw && forall k :: 0 <= k < |raw| ==> !IsControl(raw[k])
    ensures ParseScheme(raw) == Some([])
  {
    var u := Before(raw, {'#'});
    assert ':' !in u by {
      forall k | 0 <= k < |u| ensures u[k] != ':' {
        assert u[k] == raw[k];
      }
    }
    assert !exists k :: 0 <= k < |u| && IsControl(u[k]) by {
      forall k | 0 <= k < |u| ensures !IsControl(u[k]) {
        assert u[k] == raw[k];
      }
    }
    var seg := Before(u, {'/', '?'});
    assert ':' !in seg by {
      forall k | 0 <= k < |seg| ensures seg[k] != ':' {
        assert seg[k] == u[k];
      }
    }
  }

  // ---------------------------------------------------------------------
  // The scan over the Dockerfile's lines.

  /** What the scan carries from line to line: the `env` map, the working
      directory `wd` and the pairs `bs` found so far. */
  datatype ScanState = ScanState(env: Env, wd: string, found: seq<BuildSource>)
  {
    ghost predicate Valid()
    {
      env.Valid()
    }
  }

  const Start: ScanState := ScanState(EnvSubst.Empty, [], [])

  /** Where an ADD/COPY destination lands: its variables substituted and, when
      a working directory is known and the result is relative, placed below
      the working directory. */
  function Destination(env: Env, wd: string, dst: string): (r: string)
    requires env.Valid()
    ensures IsAbs(Substitute(dst, env)) || wd == [] ==> r == Substitute(dst, env)
    ensures wd != [] && !IsAbs(Substitute(dst, env)) ==> r == Join(wd, Substitute(dst, env))
    ensures IsAbs(wd) ==> IsAbs(r)
  {
    var d := Substitute(dst, env);
    if wd != [] && !IsAbs(d) then Join(wd, d) else d
  }

  /** An `ADD` or `COPY` line (pkg/start/gen2.go:620-654). */
  function AddCopy(st: ScanState, parts: seq<string>, buildPath: string): (r: Result<ScanState, BuildError>)
    requires st.Valid()
    ensures r.Success? ==> r.value.env == st.env && r.value.wd == st.wd
    ensures r.Success? ==> st.found <= r.value.found && |r.value.found| <= |st.found| + 1
  {
    match StripOptions(parts)
    case FromStage => Success(st)
    case SlicePanic => Failure(OptionsPanic)
    case Kept(ps) =>
      if |ps| <= 2 then Success(st)
      else match ParseScheme(ps[1])
        case None => Failure(UrlInvalid(ps[1]))
        case Some(scheme) =>
          if HasPrefix(ps[1], "--from") || scheme == "http" || scheme == "https" then Success(st)
          else
            var b := BuildSource(Join(buildPath, ps[1]), Destination(st.env, st.wd, ps[2]));
            Success(st.(found := st.found + [b]))
  }

  /** A source that `buildSources` copies from the build directory: it
      parses as a URL, is not a `--from` option, and is not fetched over
      http or https. */
  predicate LocalSource(src: string)
  {
    && ParseScheme(src).Some?
    && !HasPrefix(src, "--from")
    && ParseScheme(src).value != "http" && ParseScheme(src).value != "https"
  }

  /** An ADD/COPY line adds a pair exactly when the stripped line keeps at
      least a source and a destination and the source is local; the pair is
      the source below the build directory and the resolved destination. Any
      other line that does not fail leaves the state as it was. */
  lemma AddCopyAdds(st: ScanState, parts: seq<string>, buildPath: string)
    requires st.Valid()
    ensures var r := AddCopy(st, parts, buildPath);
            var sp := StripOptions(parts);
            && (r.Success? && |r.value.found| == |st.found| + 1
                <==> sp.Kept? && |sp.parts| > 2 && LocalSource(sp.parts[1]))
            && (r.Success? && |r.value.found| == |st.found| + 1 ==>
                  r.value.found[|st.found|]
                  == BuildSource(Join(buildPath, sp.parts[1]), Destination(st.env, st.wd, sp.parts[2])))
            && (r.Success? && |r.value.found| == |st.found| ==> r.value == st)
  {
  }

  /** An ADD/COPY line fails exactly on the slice panic of the option loop
      or on a source `url.Parse` refuses. */
  lemma AddCopyFails(st: ScanState, parts: seq<string>, buildPath: string)
    requires st.Valid()
    ensures var sp := StripOptions(parts);
            AddCopy(st, parts, buildPath).Failure?
            <==> sp.SlicePanic? || (sp.Kept? && |sp.parts| > 2 && ParseScheme(sp.parts[1]).None?)
  {
  }

  /** `COPY --from=stage src dst`, with `--from` the first option, adds
      nothing, whatever follows. */
  lemma FromStageSkipped(st: ScanState, parts: seq<string>, m: nat, buildPath: string)
    requires st.Valid() && m < |parts|
    requires forall j :: 0 <= j < m ==> !IsOption(parts[j])
    requires OptionName(parts[m]) == Some("from")
    ensures AddCopy(st, parts, buildPath) == Success(st)
  {
    StripFirstOptionFrom(parts, m);
  }

  /** `COPY --chown=u --from=stage src dst`: the `--from` option slides into
      the place of the removed `--chown` and is never examined, yet it ends
      up as the source, which the prefix test then skips. */
  lemma FromAfterOptionSkipped(st: ScanState, instr: string, opt: string, from: string, src: string, dst: string, buildPath: string)
    requires st.Valid()
    requires !IsOption(instr) && !IsOption(src) && !IsOption(dst)
    requires IsOption(opt) && OptionName(opt).value != "from"
    requires HasPrefix(from, "--from") && ':' !in from && forall k :: 0 <= k < |from| ==> !IsControl(from[k])
    ensures AddCopy(st, [instr, opt, from, src, dst], buildPath) == Success(st)
  {
    AdjacentOptionSurvives(instr, opt, from, src, dst);
    ParseSchemeNoColon(from);
  }

  /** A source fetched over http or https adds nothing. */
  lemma RemoteSourceSkipped(st: ScanState, parts: seq<string>, buildPath: string)
    requires st.Valid()
    requires StripOptions(parts).Kept? && |StripOptions(parts).parts| > 2
    requires ParseScheme(StripOptions(parts).parts[1]) in {Some("http"), Some("https")}
    ensures AddCopy(st, parts, buildPath) == Success(st)
  {
  }

  /** Fewer than three tokens left after stripping the options: nothing. */
  lemma ShortLineSkipped(st: ScanState, parts: seq<string>, buildPath: string)
    requires st.Valid()
    requires StripOptions(parts).Kept? && |StripOptions(parts).parts| < 3
    ensures AddCopy(st, parts, buildPath) == Success(st)
  {
  }

  /** `ENV k v` sets `k` and leaves everything else; a second `ENV` for the
      same key overrides the first and keeps the key's place. */
  lemma EnvOverrides(st: ScanState, kw: string, k: string, v1: string, v2: string, buildPath: string, host: Host)
    requires st.Valid() && IsKeyword(kw, "ENV")
    ensures var r1 := Step(st, [kw, k, v1], buildPath, host);
            && r1 == Success(st.(env := st.env.Set(k, v1)))
            && r1.value.env.vars[k] == v1
            && var r2 := Step(r1.value, [kw, k, v2], buildPath, host);
               && r2.Success?
               && r2.value.env.vars == st.env.vars[k := v2]
               && r2.value.env.order == r1.value.env.order
               && r2.value.wd == st.wd && r2.value.found == st.found
  {
    EnvStep(st, kw, k, v1, buildPath, host);
    EnvStep(st.(env := st.env.Set(k, v1)), kw, k, v2, buildPath, host);
  }

  lemma EnvStep(st: ScanState, kw: string, k: string, v: string, buildPath: string, host: Host)
    requires st.Valid() && IsKeyword(kw, "ENV")
    ensures Step(st, [kw, k, v], buildPath, host) == Success(st.(env := st.env.Set(k, v)))
  {
    assert !IsKeyword(kw, "ADD") && !IsKeyword(kw, "COPY") by {
      assert KeywordUpper(kw[0]) == 'E';
    }
  }

  /** `WORKDIR dir` sets the working directory to `dir` with the variables
      known so far substituted, and leaves everything else. */
  lemma WorkdirSubstitutes(st: ScanState, kw: string, dir: string, rest: seq<string>, buildPath: string, host: Host)
    requires st.Valid() && IsKeyword(kw, "WORKDIR")
    ensures Step(st, [kw, dir] + rest, buildPath, host) == Success(st.(wd := Substitute(dir, st.env)))
  {
    var parts := [kw, dir] + rest;
    assert parts[0] == kw && parts[1] == dir;
    assert !IsKeyword(kw, "ADD") && !IsKeyword(kw, "COPY") && !IsKeyword(kw, "ENV") && !IsKeyword(kw, "FROM") by {
      assert KeywordUpper(kw[0]) == 'W';
    }
  }

  /** `strings.SplitN(e, "=", 2)` when it gives two parts. */
  function SplitEntry(e: string): (r: Option<(string, string)>)
    ensures r.None? <==> '=' !in e
    ensures r.Some? ==> e == r.value.0 + "=" + r.value.1 && '=' !in r.value.0
  {
    var k := Before(e, {'='});
    if |k| == |e| then None
    else
      assert e == k + "=" + e[|k| + 1..];
      Some((k, e[|k| + 1..]))
  }

  /** The `env` map after the entries of an image's environment, in order;
      entries without '=' are ignored. */
  function MergeImageEnv(env: Env, ee: seq<string>): (r: Env)
    requires env.Valid()
    ensures r.Valid()
    decreases |ee|
  {
    if ee == [] then env
    else
      var prev := MergeImageEnv(env, ee[..|ee| - 1]);
      match SplitEntry(ee[|ee| - 1])
      case None => prev
      case Some((k, v)) => prev.Set(k, v)
  }

  /** The entry `ee[m]` is the last one that sets `k`. */
  predicate LastSetting(ee: seq<string>, m: nat, k: string)
    requires m < |ee|
  {
    && SplitEntry(ee[m]).Some? && SplitEntry(ee[m]).value.0 == k
    && forall n :: m < n < |ee| ==> SplitEntry(ee[n]).None? || SplitEntry(ee[n]).value.0 != k
  }

  /** Of several image entries for one variable, the last one wins. */
  lemma {:induction false} ImageEnvLastWins(env: Env, ee: seq<string>, m: nat, k: string)
    requires env.Valid() && m < |ee| && LastSetting(ee, m, k)
    ensures k in MergeImageEnv(env, ee).vars
    ensures MergeImageEnv(env, ee).vars[k] == SplitEntry(ee[m]).value.1
    decreases |ee|
  {
    if m < |ee| - 1 {
      var ee' := ee[..|ee| - 1];
      assert forall n :: m < n < |ee'| ==> ee'[n] == ee[n];
      ImageEnvLastWins(env, ee', m, k);
    }
  }

  /** A variable no image entry sets keeps its value. */
  lemma {:induction false} ImageEnvKeepsOthers(env: Env, ee: seq<string>, k: string)
    requires env.Valid()
    requires forall n :: 0 <= n < |ee| ==> SplitEntry(ee[n]).None? || SplitEntry(ee[n]).value.0 != k
    ensures k in MergeImageEnv(env, ee).vars <==> k in env.vars
    ensures k in env.vars ==> MergeImageEnv(env, ee).vars[k] == env.vars[k]
    decreases |ee|
  {
    if ee != [] {
      var ee' := ee[..|ee| - 1];
      assert forall n :: 0 <= n < |ee'| ==> ee'[n] == ee[n];
      ImageEnvKeepsOthers(env, ee', k);
    }
  }

  /** A `FROM image` line (pkg/start/gen2.go:660-686): when `docker inspect`
      cannot run the line is passed over; otherwise the image's environment
      is merged into `env` and its working directory becomes `wd`. */
  function FromImage(st: ScanState, image: string, host: Host): (r: Result<ScanState, BuildError>)
    requires st.Valid()
    ensures r.Success? ==> r.value.Valid() && r.value.found == st.found
    ensures host.inspectEnv(image).ExecFailed? ==> r == Success(st)
    ensures r.Failure? <==> host.inspectEnv(image).Undecodable?
                            || (host.inspectEnv(image).EnvList? && host.inspectWorkdir(image).None?)
  {
    match host.inspectEnv(image)
    case ExecFailed => Success(st)
    case Undecodable => Failure(EnvUndecodable(image))
    case EnvList(ee) =>
      match host.inspectWorkdir(image)
      case None => Failure(WorkdirUnavailable(image))
      case Some(out) => Success(ScanState(MergeImageEnv(st.env, ee), TrimSpace(out), st.found))
  }

  /** One line, already split into fields: the switch on the upper-cased
      instruction (pkg/start/gen2.go:619-692). */
  function Step(st: ScanState, parts: seq<string>, buildPath: string, host: Host): (r: Result<ScanState, BuildError>)
    requires st.Valid()
    ensures r.Success? ==> r.value.Valid()
    ensures r.Success? ==> st.found <= r.value.found && |r.value.found| <= |st.found| + 1
  {
    if |parts| < 1 then Success(st)
    else if IsKeyword(parts[0], "ADD") || IsKeyword(parts[0], "COPY") then AddCopy(st, parts, buildPath)
    else if IsKeyword(parts[0], "ENV") then
      if |parts| > 2 then Success(st.(env := st.env.Set(parts[1], parts[2]))) else Success(st)
    else if IsKeyword(parts[0], "FROM") then
      if |parts| > 1 then FromImage(st, parts[1], host) else Success(st)
    else if IsKeyword(parts[0], "WORKDIR") then
      if |parts| > 1 then Success(st.(wd := Substitute(parts[1], st.env))) else Success(st)
    else Success(st)
  }

  /** The state after the given lines, or the first error. */
  function ScanAll(lines: seq<string>, buildPath: string, host: Host): (r: Result<ScanState, BuildError>)
    ensures r.Success? ==> r.value.Valid()
    decreases |lines|
  {
    if lines == [] then Success(Start)
    else match ScanAll(lines[..|lines| - 1], buildPath, host)
      case Failure(e) => Failure(e)
      case Success(st) => Step(st, Fields(lines[|lines| - 1]), buildPath, host)
  }

  lemma {:induction false} ScanFailsLater(lines: seq<string>, m: nat, buildPath: string, host: Host)
    requires m <= |lines| && ScanAll(lines[..m], buildPath, host).Failure?
    ensures ScanAll(lines, buildPath, host) == ScanAll(lines[..m], buildPath, host)
    decreases |lines| - m
  {
    if m < |lines| {
      assert lines[..m + 1][..m] == lines[..m];
      ScanFailsLater(lines, m + 1, buildPath, host);
    } else {
      assert lines[..m] == lines;
    }
  }

  /** The switch for one line. */
  method ScanLine(st: ScanState, line: string, buildPath: string, host: Host) returns (r: Result<ScanState, BuildError>)
    requires st.Valid()
    ensures r == Step(st, Fields(line), buildPath, host)
  {
    var parts := Fields(line);
    if |parts| < 1 {
      return Success(st);
    }
    if IsKeyword(parts[0], "ADD") || IsKeyword(parts[0], "COPY") {
      r := AddCopyLine(st, parts, buildPath);
      return;
    } else if IsKeyword(parts[0], "ENV") {
      if |parts| > 2 {
        return Success(st.(env := st.env.Set(parts[1], parts[2])));
      }
    } else if IsKeyword(parts[0], "FROM") {
      if |parts| > 1 {
        r := FromLine(st, parts[1], host);
        return;
      }
    } else if IsKeyword(parts[0], "WORKDIR") {
      if |parts| > 1 {
        var wd := ReplaceEnv(parts[1], st.env);
        return Success(st.(wd := wd));
      }
    }
    return Success(st);
  }

  /** An ADD or COPY line: the options are stripped in place, then the
      source and destination are read. */
  method AddCopyLine(st: ScanState, parts: seq<string>, buildPath: string) returns (r: Result<ScanState, BuildError>)
    requires st.Valid()
    ensures r == AddCopy(st, parts, buildPath)
  {
    var arr := new string[|parts|](k requires 0 <= k < |parts| => parts[k]);
    assert arr[..] == parts;
    var stripped := StripOptionsInPlace(arr);
    match stripped
    case FromStage => return Success(st);
    case SlicePanic => return Failure(OptionsPanic);
    case Kept(ps) =>
      if |ps| > 2 {
        var scheme := ParseScheme(ps[1]);
        if scheme.None? {
          return Failure(UrlInvalid(ps[1]));
        }
        if HasPrefix(ps[1], "--from") {
          return Success(st);
        }
        if scheme.value == "http" || scheme.value == "https" {
          return Success(st);
        }
        var local := Join(buildPath, ps[1]);
        var remote := ReplaceEnv(ps[2], st.env);
        if st.wd != [] && !IsAbs(remote) {
          remote := Join(st.wd, remote);
        }
        return Success(st.(found := st.found + [BuildSource(local, remote)]));
      }
      return Success(st);
  }

  /** A FROM line: the image's environment is merged in, entry by entry, and
      its working directory taken. */
  method FromLine(st: ScanState, image: string, host: Host) returns (r: Result<ScanState, BuildError>)
    requires st.Valid()
    ensures r == FromImage(st, image, host)
  {
    var inspected := host.inspectEnv(image);
    match inspected
    case ExecFailed => return Success(st);
    case Undecodable => return Failure(EnvUndecodable(image));
    case EnvList(ee) =>
      var env := st.env;
      for n := 0 to |ee|
        invariant env.Valid() && env == MergeImageEnv(st.env, ee[..n])
      {
        assert ee[..n + 1][..n] == ee[..n];
        var kv := SplitEntry(ee[n]);
        if kv.Some? {
          env := env.Set(kv.value.0, kv.value.1);
        }
      }
      assert ee[..|ee|] == ee;
      var out := host.inspectWorkdir(image);
      if out.None? {
        return Failure(WorkdirUnavailable(image));
      }
      return Success(ScanState(env, TrimSpace(out.value), st.found));
  }

  /** The scan loop (pkg/start/gen2.go:612-693). */
  method ScanDockerfile(text: string, buildPath: string, host: Host) returns (r: Result<ScanState, BuildError>)
    ensures r == ScanAll(Lines(text), buildPath, host)
  {
    var lines := Lines(text);
    var st := Start;
    for i := 0 to |lines|
      invariant ScanAll(lines[..i], buildPath, host) == Success(st)
    {
      var next := ScanLine(st, lines[i], buildPath, host);
      ScanSnoc(lines, i, st, buildPath, host);
      if next.Failure? {
        ScanFailsLater(lines, i + 1, buildPath, host);
        return next;
      }
      st := next.value;
    }
    assert lines[..|lines|] == lines;
    return Success(st);
  }

  /** The scan over one more line. */
  lemma ScanSnoc(lines: seq<string>, i: nat, st: ScanState, buildPath: string, host: Host)
    requires i < |lines| && ScanAll(lines[..i], buildPath, host) == Success(st)
    ensures st.Valid() && ScanAll(lines[..i + 1], buildPath, host) == Step(st, Fields(lines[i]), buildPath, host)
  {
    assert lines[..i + 1][..i] == lines[..i];
  }

  // ---------------------------------------------------------------------
  // Making the pairs absolute (pkg/start/gen2.go:695-715).

  predicate EndsWithSlash(s: string)
  {
    s != [] && s[|s| - 1] == '/'
  }

  /** `filepath.Abs` on Unix: an absolute path is cleaned, a relative one is
      joined onto the working directory, which must be known. */
  function AbsPath(p: string, cwd: Option<string>): (r: Result<string, BuildError>)
    ensures r.Failure? <==> !IsAbs(p) && cwd.None?
    ensures r.Success? && (IsAbs(p) || (cwd.Some? && IsAbs(cwd.value))) ==> IsAbs(r.value)
    ensures r.Success? && p != [] ==> r.value != [] && (EndsWithSlash(r.value) ==> r.value == "/")
  {
    if IsAbs(p) then Success(Clean(p))
    else match cwd
      case None => Failure(NoWorkingDirectory(p))
      case Some(w) => Success(Join(w, p))
  }

  /** One pair made absolute: a directory's local path gets a trailing '/',
      and a `.` destination becomes the final working directory. */
  function NormalizeOne(b: BuildSource, wd: string, host: Host): (r: Result<BuildSource, BuildError>)
    ensures r.Success? <==> AbsPath(b.local, host.cwd).Success? && host.stat(AbsPath(b.local, host.cwd).value).Some?
    ensures r.Success? ==> r.value.remote == if b.remote == "." then wd else b.remote
    ensures r.Success? ==>
              var a := AbsPath(b.local, host.cwd).value;
              && (r.value.local == a || r.value.local == a + "/")
              && (host.stat(a).value ==> EndsWithSlash(r.value.local))
              && (!host.stat(a).value ==> r.value.local == a)
  {
    match AbsPath(b.local, host.cwd)
    case Failure(e) => Failure(e)
    case Success(a) =>
      match host.stat(a)
      case None => Failure(StatFailed(a))
      case Some(isDir) =>
        var local := if isDir && !EndsWithSlash(a) then a + "/" else a;
        Success(BuildSource(local, if b.remote == "." then wd else b.remote))
  }

  /** The values of `rs` when every one is a success, otherwise the first
      failure. */
  function Collect<T, E>(rs: seq<Result<T, E>>): Result<seq<T>, E>
    decreases |rs|
  {
    if rs == [] then Success([])
    else match Collect(rs[..|rs| - 1])
      case Failure(e) => Failure(e)
      case Success(t) =>
        match rs[|rs| - 1]
        case Failure(e) => Failure(e)
        case Success(b) => Success(t + [b])
  }

  /** Every pair's own normalization, in order. */
  function Steps(s: seq<BuildSource>, wd: string, host: Host): (r: seq<Result<BuildSource, BuildError>>)
    ensures |r| == |s|
    ensures forall k :: 0 <= k < |s| ==> r[k] == NormalizeOne(s[k], wd, host)
  {
    seq(|s|, k requires 0 <= k < |s| => NormalizeOne(s[k], wd, host))
  }

  /** All pairs made absolute, or the first error. */
  function NormalizeAll(s: seq<BuildSource>, wd: string, host: Host): Result<seq<BuildSource>, BuildError>
  {
    Collect(Steps(s, wd, host))
  }

  /** Collecting succeeds exactly when every result is a success. */
  lemma {:induction false} CollectSucceeds<T, E>(rs: seq<Result<T, E>>)
    ensures Collect(rs).Success? <==> forall k :: 0 <= k < |rs| ==> rs[k].Success?
    decreases |rs|
  {
    if rs != [] {
      var rs' := rs[..|rs| - 1];
      CollectSucceeds(rs');
      if Collect(rs').Failure? {
        var k :| 0 <= k < |rs'| && rs'[k].Failure?;
        assert rs[k] == rs'[k];
      } else if rs[|rs| - 1].Success? {
        forall k | 0 <= k < |rs| ensures rs[k].Success? {
          if k < |rs'| {
            assert rs[k] == rs'[k];
          }
        }
      }
    }
  }

  /** A successful collection holds the values, one per result, in order. */
  lemma {:induction false} CollectPointwise<T, E>(rs: seq<Result<T, E>>)
    requires Collect(rs).Success?
    ensures |Collect(rs).value| == |rs|
    ensures forall k :: 0 <= k < |rs| ==> rs[k] == Success(Collect(rs).value[k])
    decreases |rs|
  {
    if rs != [] {
      var rs' := rs[..|rs| - 1];
      CollectPointwise(rs');
      var t := Collect(rs').value;
      var u := Collect(rs).value;
      assert u == t + [rs[|rs| - 1].value];
      forall k | 0 <= k < |rs| ensures rs[k] == Success(u[k]) {
        if k < |rs'| {
          assert rs[k] == rs'[k] && u[k] == t[k];
        }
      }
    }
  }

  /** Once a prefix has failed, the rest does not matter. */
  lemma {:induction false} CollectFailsLater<T, E>(rs: seq<Result<T, E>>, m: nat)
    requires m <= |rs| && Collect(rs[..m]).Failure?
    ensures Collect(rs) == Collect(rs[..m])
    decreases |rs| - m
  {
    if m < |rs| {
      assert rs[..m + 1][..m] == rs[..m];
      CollectFailsLater(rs, m + 1);
    } else {
      assert rs[..m] == rs;
    }
  }

  /** One more result: its value is appended, or its error ends the whole
      collection. */
  lemma CollectExtend<T, E>(rs: seq<Result<T, E>>, i: nat)
    requires i < |rs| && Collect(rs[..i]).Success?
    ensures rs[i].Success? ==> Collect(rs[..i + 1]) == Success(Collect(rs[..i]).value + [rs[i].value])
    ensures rs[i].Failure? ==> Collect(rs) == Failure(rs[i].error)
  {
    var p := rs[..i + 1];
    assert p[..i] == rs[..i] && p[i] == rs[i];
    if rs[i].Failure? {
      CollectFailsLater(rs, i + 1);
    }
  }

  /** Normalizing succeeds exactly when it succeeds for every pair. */
  lemma NormalizeSucceeds(s: seq<BuildSource>, wd: string, host: Host)
    ensures NormalizeAll(s, wd, host).Success? <==> forall k :: 0 <= k < |s| ==> NormalizeOne(s[k], wd, host).Success?
  {
    CollectSucceeds(Steps(s, wd, host));
  }

  /** A successful normalization is the pairs' normalizations, in order. */
  lemma NormalizePointwise(s: seq<BuildSource>, wd: string, host: Host)
    requires NormalizeAll(s, wd, host).Success?
    ensures |NormalizeAll(s, wd, host).value| == |s|
    ensures forall k :: 0 <= k < |s| ==> NormalizeOne(s[k], wd, host) == Success(NormalizeAll(s, wd, host).value[k])
  {
    CollectPointwise(Steps(s, wd, host));
  }

  /** The loop over `bs`, rewriting each pair in place. */
  method Normalize(bs: array<BuildSource>, wd: string, host: Host) returns (err: Option<BuildError>)
    modifies bs
    ensures NormalizeAll(old(bs[..]), wd, host) == if err.None? then Success(bs[..]) else Failure(err.value)
  {
    ghost var orig := bs[..];
    ghost var rs := Steps(orig, wd, host);
    for i := 0 to bs.Length
      invariant forall m :: i <= m < bs.Length ==> bs[m] == orig[m]
      invariant Collect(rs[..i]) == Success(bs[..i])
    {
      assert bs[i] == orig[i];
      assert rs[i] == NormalizeOne(orig[i], wd, host);
      CollectExtend(rs, i);
      var abs := AbsPath(bs[i].local, host.cwd);
      if abs.Failure? {
        return Some(abs.error);
      }
      var stat := host.stat(abs.value);
      if stat.None? {
        return Some(StatFailed(abs.value));
      }
      var local := abs.value;
      if stat.value && !EndsWithSlash(local) {
        local := local + "/";
      }
      bs[i] := bs[i].(local := local);
      if bs[i].remote == "." {
        bs[i] := bs[i].(remote := wd);
      }
      assert Success(bs[i]) == rs[i];
      assert bs[..i + 1] == bs[..i] + [bs[i]];
    }
    assert bs[..bs.Length] == bs[..];
    assert rs[..bs.Length] == rs;
    return None;
  }

  // ---------------------------------------------------------------------
  // The whole function.

  /** What `buildDockerfile` provides: nothing for a service that runs a
      prebuilt image, an error, or the Dockerfile's text. */
  datatype Dockerfile = ImageOnly | Unavailable | Recipe(text: string)

  function Resolve(df: Dockerfile, buildPath: string, host: Host): Result<seq<BuildSource>, BuildError>
  {
    match df
    case Unavailable => Failure(DockerfileUnavailable)
    case ImageOnly => Success([])
    case Recipe(text) =>
      match ScanAll(Lines(text), buildPath, host)
      case Failure(e) => Failure(e)
      case Success(st) =>
        match NormalizeAll(st.found, st.wd, host)
        case Failure(e) => Failure(e)
        case Success(bs) => DedupFrom(bs, 0, host.rel)
  }

  /** What `buildSources` returns, when it returns a list: the pairs the
      scan found, made absolute, with the covered ones dropped and the order
      kept; every local path is absolute when the working directory is. */
  lemma ResolvedSources(text: string, buildPath: string, host: Host)
    requires Resolve(Recipe(text), buildPath, host).Success?
    requires host.cwd.Some? ==> IsAbs(host.cwd.value)
    ensures var st := ScanAll(Lines(text), buildPath, host);
            var ns := NormalizeAll(st.value.found, st.value.wd, host);
            var out := Resolve(Recipe(text), buildPath, host).value;
            && st.Success? && ns.Success?
            && out == Survivors(ns.value, 0, host.rel)
            && Subsequence(out, ns.value)
            && (ns.value != [] ==> out != [] && out[|out| - 1] == ns.value[|ns.value| - 1])
            && (forall b :: b in out ==> IsAbs(b.local))
  {
    ResolveRecipe(text, buildPath, host);
    var st := ScanAll(Lines(text), buildPath, host).value;
    var ns := NormalizeAll(st.found, st.wd, host).value;
    var out := DedupFrom(ns, 0, host.rel).value;
    DedupResult(ns, host.rel);
    SubsequenceMembers(out, ns);
    NormalizedAbsolute(st.found, st.wd, host);
  }

  /** A Dockerfile that resolves has been scanned and normalized, and its
      result is the deduplication of the normalized pairs. */
  lemma ResolveRecipe(text: string, buildPath: string, host: Host)
    requires Resolve(Recipe(text), buildPath, host).Success?
    ensures var st := ScanAll(Lines(text), buildPath, host);
            && st.Success?
            && NormalizeAll(st.value.found, st.value.wd, host).Success?
            && var ns := NormalizeAll(st.value.found, st.value.wd, host).value;
               DedupFrom(ns, 0, host.rel).Success?
               && Resolve(Recipe(text), buildPath, host).value == DedupFrom(ns, 0, host.rel).value
  {
  }

  /** Normalized local paths are absolute when the working directory is. */
  lemma NormalizedAbsolute(s: seq<BuildSource>, wd: string, host: Host)
    requires NormalizeAll(s, wd, host).Success?
    requires host.cwd.Some? ==> IsAbs(host.cwd.value)
    ensures forall b :: b in NormalizeAll(s, wd, host).value ==> IsAbs(b.local)
  {
    var ns := NormalizeAll(s, wd, host).value;
    NormalizePointwise(s, wd, host);
    forall b | b in ns ensures IsAbs(b.local) {
      var k :| 0 <= k < |ns| && ns[k] == b;
      assert NormalizeOne(s[k], wd, host) == Success(b);
    }
  }

  /** `buildSources`, for a service whose build directory is `buildPath`. */
  method BuildSources(df: Dockerfile, buildPath: string, host: Host) returns (r: Result<seq<BuildSource>, BuildError>)
    ensures r == Resolve(df, buildPath, host)
  {
    match df
    case Unavailable => return Failure(DockerfileUnavailable);
    case ImageOnly => return Success([]);
    case Recipe(text) =>
      var scanned := ScanDockerfile(text, buildPath, host);
      if scanned.Failure? {
        return Failure(scanned.error);
      }
      var st := scanned.value;
      var bs := new BuildSource[|st.found|](k requires 0 <= k < |st.found| => st.found[k]);
      assert bs[..] == st.found;
      var err := Normalize(bs, st.wd, host);
      if err.Some? {
        return Failure(err.value);
      }
      r := Dedup(bs[..], host.rel);
  }
}
