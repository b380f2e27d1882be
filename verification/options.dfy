/** The option-stripping loop of `buildSources` for ADD/COPY lines
    (pkg/start/gen2.go:621-630).

    Go's `for i, p := range parts` evaluates `parts` once: it visits the
    ORIGINAL number of positions and reads each `p` from the backing array
    that `parts = append(parts[:i], parts[i+1:]...)` shifts left in place.
    So after an option is removed the token that slid into its place is never
    examined, positions past the shortened slice are read again (they still
    hold copies of the last token), and removing at an index past the end of
    the shortened slice is a run-time panic. The model keeps all of this: the
    backing array is a Dafny array and `len` is the slice length. */
module DockerOptions {
  import opened Wrappers

  predicate IsLower(c: char)
  {
    'a' <= c <= 'z'
  }

  /** The longest prefix of lower-case ASCII letters. */
  function LowerRun(t: string): (r: string)
    ensures |r| <= |t| && r == t[..|r|]
    ensures forall i :: 0 <= i < |r| ==> IsLower(r[i])
    ensures |r| < |t| ==> !IsLower(t[|r|])
  {
    if t == [] || !IsLower(t[0]) then [] else [t[0]] + LowerRun(t[1..])
  }

  /** Submatch 1 of `--([a-z]+)` in `t`, if the pattern matches anywhere:
      the letters after the leftmost "--" that is followed by a lower-case
      letter. (`strings.ToLower` of it is itself.) */
  function OptionName(t: string): (r: Option<string>)
    ensures r.Some? ==> r.value != [] && forall i :: 0 <= i < |r.value| ==> IsLower(r.value[i])
  {
    if |t| < 3 then None
    else if t[0] == '-' && t[1] == '-' && IsLower(t[2]) then Some(LowerRun(t[2..]))
    else OptionName(t[1..])
  }

  predicate IsOption(t: string)
  {
    OptionName(t).Some?
  }

  /** What the loop leaves behind: `continue lines` on a `--from` option, a
      slice-bounds panic, or the stripped slice. */
  datatype Stripped = FromStage | SlicePanic | Kept(parts: seq<string>)

  /** The loop from position `i` on, with backing array `arr` and slice
      length `len`. Removing at `i` shifts `arr[i+1..len]` one place left and
      leaves `arr[len-1]` and everything after it as it was. */
  function StripFrom(arr: seq<string>, len: nat, i: nat): Stripped
    requires len <= |arr| && i <= |arr|
    decreases |arr| - i
  {
    if i == |arr| then Kept(arr[..len])
    else match OptionName(arr[i])
      case None => StripFrom(arr, len, i + 1)
      case Some(name) =>
        if name == "from" then FromStage
        else if len <= i then SlicePanic
        else StripFrom(arr[..i] + arr[i + 1..len] + arr[len - 1..], len - 1, i + 1)
  }

  function StripOptions(parts: seq<string>): Stripped
  {
    StripFrom(parts, |parts|, 0)
  }

  /** The loop itself, on the backing array of `parts`. */
  method StripOptionsInPlace(parts: array<string>) returns (r: Stripped)
    modifies parts
    ensures r == StripOptions(old(parts[..]))
    ensures r.Kept? ==> |r.parts| <= parts.Length && r.parts == parts[..|r.parts|]
  {
    var len: nat := parts.Length;
    var i := 0;
    while i < parts.Length
      invariant i <= parts.Length && len <= parts.Length
      invariant StripFrom(parts[..], len, i) == StripOptions(old(parts[..]))
    {
      var name := OptionName(parts[i]);
      if name.None? {
        StepPlain(parts[..], len, i, i + 1);
      } else {
        if name.value == "from" {
          return FromStage;
        }
        if len <= i {
          return SlicePanic;
        }
        ghost var before := parts[..];
        ShiftLeft(parts, i, len);
        StepRemove(before, len, i, i + 1, parts[..]);
        len := len - 1;
      }
      i := i + 1;
    }
    r := Kept(parts[..len]);
  }

  /** `append(parts[:i], parts[i+1:len]...)` on the backing array: the
      tokens after `i` move one place left; from `len - 1` on the array is
      left as it was. */
  method ShiftLeft(parts: array<string>, i: nat, len: nat)
    requires i < len <= parts.Length
    modifies parts
    ensures parts[..] == old(parts[..i]) + old(parts[i + 1..len]) + old(parts[len - 1..])
  {
    ghost var before := parts[..];
    var j := i;
    while j < len - 1
      invariant i <= j <= len - 1
      invariant forall m :: i <= m < j ==> parts[m] == before[m + 1]
      invariant forall m :: 0 <= m < i || j <= m < parts.Length ==> parts[m] == before[m]
    {
      parts[j] := parts[j + 1];
      j := j + 1;
    }
    ghost var after := before[..i] + before[i + 1..len] + before[len - 1..];
    assert |after| == parts.Length;
    forall m | 0 <= m < parts.Length ensures parts[m] == after[m] {
      if m < i {
        assert after[m] == before[m];
      } else if m < len - 1 {
        assert after[m] == before[m + 1];
      } else {
        assert after[m] == before[m];
      }
    }
    assert parts[..] == after;
  }

  /** A token that is not an option is passed over. */
  lemma StepPlain(arr: seq<string>, len: nat, i: nat, k: nat)
    requires len <= |arr| && i < |arr| && OptionName(arr[i]).None? && k == i + 1
    ensures StripFrom(arr, len, i) == StripFrom(arr, len, k)
  {
  }

  /** An option other than `--from` inside the slice is removed, and the loop
      goes on at the next position. */
  lemma StepRemove(arr: seq<string>, len: nat, i: nat, k: nat, arr': seq<string>)
    requires i < len <= |arr| && OptionName(arr[i]).Some? && OptionName(arr[i]).value != "from"
    requires k == i + 1 && arr' == arr[..i] + arr[i + 1..len] + arr[len - 1..]
    ensures StripFrom(arr, len, i) == StripFrom(arr', len - 1, k)
  {
  }

  /** The tokens of `xs` that are not options, in order. */
  function Unflagged(xs: seq<string>): (r: seq<string>)
    ensures |r| <= |xs|
  {
    if xs == [] then []
    else Unflagged(xs[..|xs| - 1]) + (if IsOption(xs[|xs| - 1]) then [] else [xs[|xs| - 1]])
  }

  predicate HasFromOption(xs: seq<string>)
  {
    exists j :: 0 <= j < |xs| && OptionName(xs[j]) == Some("from")
  }

  /** No two options stand next to each other and the last token is not an
      option: the shape of every ADD/COPY line whose options each carry their
      value after '=' and precede the source and destination. */
  predicate Isolated(xs: seq<string>)
  {
    && (forall j :: 0 <= j < |xs| - 1 ==> !IsOption(xs[j]) || !IsOption(xs[j + 1]))
    && (|xs| > 0 ==> !IsOption(xs[|xs| - 1]))
  }

  lemma {:induction false} StripNonOptionsTail(arr: seq<string>, len: nat, i: nat)
    requires len <= |arr| && i <= |arr|
    requires forall j :: i <= j < |arr| ==> !IsOption(arr[j])
    ensures StripFrom(arr, len, i) == Kept(arr[..len])
    decreases |arr| - i
  {
    if i < |arr| {
      StripNonOptionsTail(arr, len, i + 1);
    }
  }

  lemma UnflaggedSnoc(xs: seq<string>, m: nat)
    requires m < |xs|
    ensures Unflagged(xs[..m + 1]) == Unflagged(xs[..m]) + (if IsOption(xs[m]) then [] else [xs[m]])
  {
    assert xs[..m + 1][..m] == xs[..m];
  }

  lemma HasFromSplit(xs: seq<string>, m: nat)
    requires m <= |xs|
    ensures HasFromOption(xs) <==> HasFromOption(xs[..m]) || HasFromOption(xs[m..])
  {
    if HasFromOption(xs) {
      var j :| 0 <= j < |xs| && OptionName(xs[j]) == Some("from");
      if j < m {
        assert xs[..m][j] == xs[j];
      } else {
        assert xs[m..][j - m] == xs[j];
      }
    }
    if HasFromOption(xs[m..]) {
      var j :| 0 <= j < |xs[m..]| && OptionName(xs[m..][j]) == Some("from");
      assert xs[m + j] == xs[m..][j];
    }
    if HasFromOption(xs[..m]) {
      var j :| 0 <= j < |xs[..m]| && OptionName(xs[..m][j]) == Some("from");
      assert xs[j] == xs[..m][j];
    }
  }

  /** One state of the loop on an isolated line: `k = |orig| - len` options
      removed so far, position `i` holds original token `i + k`, the part
      before `i` is the unflagged prefix and every position past `len` holds
      a copy of the last token. */
  ghost predicate IsolatedState(orig: seq<string>, arr: seq<string>, len: nat, i: nat)
  {
    && |arr| == |orig| && len <= |arr| && i <= len
    && arr[..i] == Unflagged(orig[..i + |orig| - len])
    && arr[i..len] == orig[i + |orig| - len..]
    && (forall j :: len <= j < |arr| ==> arr[j] == orig[|orig| - 1])
    && !HasFromOption(orig[..i + |orig| - len])
  }

  lemma {:induction false} StripIsolatedFrom(orig: seq<string>, arr: seq<string>, len: nat, i: nat)
    requires Isolated(orig)
    requires IsolatedState(orig, arr, len, i)
    ensures StripFrom(arr, len, i) == if HasFromOption(orig) then FromStage else Kept(Unflagged(orig))
    decreases |arr| - i
  {
    if i == len {
      IsolatedDone(orig, arr, len, i);
    } else if OptionName(arr[i]).None? {
      IsolatedKeep(orig, arr, len, i);
      StripIsolatedFrom(orig, arr, len, i + 1);
      assert StripFrom(arr, len, i) == StripFrom(arr, len, i + 1);
    } else if OptionName(arr[i]).value == "from" {
      IsolatedFrom(orig, arr, len, i);
    } else {
      var arr' := arr[..i] + arr[i + 1..len] + arr[len - 1..];
      IsolatedRemove(orig, arr, len, i);
      StripIsolatedFrom(orig, arr', len - 1, i + 1);
      assert StripFrom(arr, len, i) == StripFrom(arr', len - 1, i + 1);
    }
  }

  /** A `--from` option among the original tokens stops the loop. */
  lemma IsolatedFrom(orig: seq<string>, arr: seq<string>, len: nat, i: nat)
    requires IsolatedState(orig, arr, len, i) && i < len
    requires OptionName(arr[i]) == Some("from")
    ensures HasFromOption(orig) && StripFrom(arr, len, i) == FromStage
  {
    var k := |orig| - len;
    assert arr[i] == orig[i + k] by {
      assert arr[i..len][0] == arr[i];
      assert orig[i + k..][0] == orig[i + k];
    }
  }

  /** All original tokens visited: the rest of the loop reads copies of the
      last token, which is not an option. */
  lemma IsolatedDone(orig: seq<string>, arr: seq<string>, len: nat, i: nat)
    requires Isolated(orig)
    requires IsolatedState(orig, arr, len, i) && i == len
    ensures StripFrom(arr, len, i) == Kept(Unflagged(orig))
    ensures !HasFromOption(orig)
  {
    var n := |orig|;
    var m := i + |orig| - len;
    assert m == n && orig[..m] == orig;
    DoneTail(orig, arr, len, i);
    StripNonOptionsTail(arr, len, i);
    assert arr[..len] == arr[..i];
  }

  lemma DoneTail(orig: seq<string>, arr: seq<string>, len: nat, i: nat)
    requires Isolated(orig)
    requires IsolatedState(orig, arr, len, i) && i == len
    ensures forall j :: i <= j < |arr| ==> !IsOption(arr[j])
  {
    forall j | i <= j < |arr| ensures !IsOption(arr[j]) {
      assert arr[j] == orig[|orig| - 1];
    }
  }

  /** A token that is not an option is kept and the next one is read. */
  lemma IsolatedKeep(orig: seq<string>, arr: seq<string>, len: nat, i: nat)
    requires Isolated(orig)
    requires IsolatedState(orig, arr, len, i) && i < len
    requires !IsOption(arr[i])
    ensures IsolatedState(orig, arr, len, i + 1)
  {
    KeptPrefix(orig, arr, len, i);
    KeptRest(orig, arr, len, i);
  }

  lemma KeptPrefix(orig: seq<string>, arr: seq<string>, len: nat, i: nat)
    requires IsolatedState(orig, arr, len, i) && i < len
    requires !IsOption(arr[i])
    ensures arr[..i + 1] == Unflagged(orig[..i + 1 + |orig| - len])
    ensures !HasFromOption(orig[..i + 1 + |orig| - len])
  {
    var k := |orig| - len;
    var m := i + k;
    assert arr[i] == orig[m] by {
      assert arr[i..len][0] == arr[i];
    }
    assert orig[..i + 1 + |orig| - len] == orig[..m + 1];
    UnflaggedSnoc(orig, m);
    assert arr[..i + 1] == arr[..i] + [arr[i]];
    HasFromSplit(orig[..m + 1], m);
    assert orig[..m + 1][..m] == orig[..m];
    assert orig[..m + 1][m..] == [orig[m]];
  }

  lemma KeptRest(orig: seq<string>, arr: seq<string>, len: nat, i: nat)
    requires IsolatedState(orig, arr, len, i) && i < len
    ensures arr[i + 1..len] == orig[i + 1 + |orig| - len..]
  {
    assert arr[i + 1..len] == arr[i..len][1..];
  }

  /** An option other than `--from` is removed; the token that slides into
      its place is not an option (isolation) and is passed over. */
  lemma IsolatedRemove(orig: seq<string>, arr: seq<string>, len: nat, i: nat)
    requires Isolated(orig)
    requires IsolatedState(orig, arr, len, i) && i < len
    requires OptionName(arr[i]).Some? && OptionName(arr[i]).value != "from"
    ensures IsolatedState(orig, arr[..i] + arr[i + 1..len] + arr[len - 1..], len - 1, i + 1)
  {
    var n, k := |orig|, |orig| - len;
    assert arr[i] == orig[i + k] by {
      assert arr[i..len][0] == arr[i];
    }
    assert i + k < n - 1;
    assert !IsOption(orig[i + k + 1]);
    var arr' := arr[..i] + arr[i + 1..len] + arr[len - 1..];
    RemovedPrefix(orig, arr, len, i);
    RemovedRest(orig, arr, len, i);
    HasFromSplit(orig[..i + k + 2], i + k);
    assert orig[..i + k + 2][..i + k] == orig[..i + k];
    assert orig[..i + k + 2][i + k..] == [orig[i + k], orig[i + k + 1]];
  }

  lemma RemovedPrefix(orig: seq<string>, arr: seq<string>, len: nat, i: nat)
    requires IsolatedState(orig, arr, len, i) && i + 1 < len
    requires IsOption(orig[i + |orig| - len]) && !IsOption(orig[i + |orig| - len + 1])
    ensures (arr[..i] + arr[i + 1..len] + arr[len - 1..])[..i + 1]
            == Unflagged(orig[..i + |orig| - len + 2])
  {
    var k := |orig| - len;
    assert arr[i + 1] == orig[i + k + 1] by {
      assert arr[i..len][1] == arr[i + 1];
    }
    assert (arr[..i] + arr[i + 1..len] + arr[len - 1..])[..i + 1] == arr[..i] + [arr[i + 1]];
    UnflaggedSnoc(orig, i + k);
    UnflaggedSnoc(orig, i + k + 1);
  }

  lemma RemovedRest(orig: seq<string>, arr: seq<string>, len: nat, i: nat)
    requires IsolatedState(orig, arr, len, i) && i + 1 < len
    ensures var arr' := arr[..i] + arr[i + 1..len] + arr[len - 1..];
            && |arr'| == |arr|
            && arr'[i + 1..len - 1] == orig[i + |orig| - len + 2..]
            && (forall j :: len - 1 <= j < |arr'| ==> arr'[j] == orig[|orig| - 1])
  {
    var n, k := |orig|, |orig| - len;
    var arr' := arr[..i] + arr[i + 1..len] + arr[len - 1..];
    assert arr'[i + 1..len - 1] == arr[i + 2..len];
    assert arr[i + 2..len] == arr[i..len][2..];
    forall j | len - 1 <= j < |arr'| ensures arr'[j] == orig[n - 1] {
      assert arr'[j] == arr[j];
      if j == len - 1 {
        assert arr[len - 1] == arr[i..len][len - 1 - i];
      }
    }
  }

  /** On an isolated line the loop does what it is meant to do: a `--from`
      option anywhere skips the line, and otherwise exactly the option tokens
      are removed, the rest keeping their order. */
  lemma StripIsolated(parts: seq<string>)
    requires Isolated(parts)
    ensures StripOptions(parts) == if HasFromOption(parts) then FromStage else Kept(Unflagged(parts))
  {
    IsolatedStart(parts);
    StripIsolatedFrom(parts, parts, |parts|, 0);
  }

  /** Before the first turn nothing is removed and nothing is kept yet. */
  lemma IsolatedStart(orig: seq<string>)
    ensures IsolatedState(orig, orig, |orig|, 0)
  {
    var n := |orig|;
    assert n - n == 0;
    assert orig[..0] == [] && orig[0..n] == orig[0..];
    assert Unflagged(orig[..0]) == [];
    assert !HasFromOption(orig[..0]);
  }

  lemma {:induction false} StripUntilFrom(parts: seq<string>, i: nat, m: nat)
    requires i <= m < |parts|
    requires forall j :: i <= j < m ==> !IsOption(parts[j])
    requires OptionName(parts[m]) == Some("from")
    ensures StripFrom(parts, |parts|, i) == FromStage
    decreases m - i
  {
    if i < m {
      StripUntilFrom(parts, i + 1, m);
    }
  }

  /** When the first option on the line is `--from`, the line is skipped
      whatever follows it. */
  lemma StripFirstOptionFrom(parts: seq<string>, m: nat)
    requires m < |parts|
    requires forall j :: 0 <= j < m ==> !IsOption(parts[j])
    requires OptionName(parts[m]) == Some("from")
    ensures StripOptions(parts) == FromStage
  {
    StripUntilFrom(parts, 0, m);
  }

  lemma {:induction false} LowerRunOf(w: string, rest: string)
    requires forall i :: 0 <= i < |w| ==> IsLower(w[i])
    requires rest == [] || !IsLower(rest[0])
    ensures LowerRun(w + rest) == w
  {
    if w != [] {
      assert (w + rest)[1..] == w[1..] + rest;
      LowerRunOf(w[1..], rest);
    } else {
      assert w + rest == rest;
    }
  }

  /** A token `--name` or `--name=value` is an option named `name`. */
  lemma OptionNameOf(w: string, rest: string)
    requires w != [] && forall i :: 0 <= i < |w| ==> IsLower(w[i])
    requires rest == [] || !IsLower(rest[0])
    ensures OptionName("--" + w + rest) == Some(w)
  {
    var t, u := "--" + w + rest, w + rest;
    assert |t| >= 3 && t[0] == '-' && t[1] == '-' && t[2] == w[0];
    assert t[2..] == u;
    OptionNameAt(t, u);
    LowerRunOf(w, rest);
  }

  lemma OptionNameAt(t: string, u: string)
    requires |t| >= 3 && t[0] == '-' && t[1] == '-' && IsLower(t[2]) && t[2..] == u
    ensures OptionName(t) == Some(LowerRun(u))
  {
  }

  /** A token without '-' is no option. */
  lemma {:induction false} NoDashNoOption(t: string)
    requires '-' !in t
    ensures OptionName(t) == None
  {
    if |t| >= 3 {
      assert t[0] != '-';
      assert '-' !in t[1..];
      NoDashNoOption(t[1..]);
    }
  }

  /** Two options in a row: the second slides into the place of the first
      and is never examined, so it survives as `parts[1]` -- whether it is
      another option or even `--from`. */
  lemma AdjacentOptionSurvives(instr: string, o1: string, o2: string, src: string, dst: string)
    requires !IsOption(instr) && !IsOption(src) && !IsOption(dst)
    requires IsOption(o1) && OptionName(o1).value != "from"
    ensures StripOptions([instr, o1, o2, src, dst]) == Kept([instr, o2, src, dst])
  {
    var a := [instr, o1, o2, src, dst];
    var a' := a[..1] + a[2..5] + a[4..];
    assert a[0] == instr && a[1] == o1;
    StepPlain(a, 5, 0, 1);
    StepRemove(a, 5, 1, 2, a');
    assert a' == [instr, o2, src, dst, dst];
    StripNonOptionsTail(a', 4, 2);
    assert a'[..4] == [instr, o2, src, dst];
  }

  /** An option last on the line, after an earlier removal, is read a second
      time from the stale end of the backing array, and removing it then is
      out of the slice's bounds. */
  lemma TrailingOptionPanics(instr: string, o1: string, src: string, o2: string)
    requires !IsOption(instr) && !IsOption(src)
    requires IsOption(o1) && OptionName(o1).value != "from"
    requires IsOption(o2) && OptionName(o2).value != "from"
    ensures StripOptions([instr, o1, src, o2]) == SlicePanic
  {
    var a := [instr, o1, src, o2];
    var a1 := a[..1] + a[2..4] + a[3..];
    assert a[0] == instr && a[1] == o1;
    StepPlain(a, 4, 0, 1);
    StepRemove(a, 4, 1, 2, a1);
    assert a1 == [instr, src, o2, o2];
    var a2 := a1[..2] + a1[3..3] + a1[2..];
    assert a2 == a1;
    StepRemove(a1, 3, 2, 3, a2);
    assert StripFrom(a1, 2, 3) == SlicePanic;
  }

  /** `COPY --chown=1:1 --chmod=644 app /app` keeps `--chmod=644`. */
  lemma ChmodAfterChownKept(parts: seq<string>)
    requires parts == ["COPY", "--chown=1:1", "--chmod=644", "app", "/app"]
    ensures StripOptions(parts) == Kept(["COPY", "--chmod=644", "app", "/app"])
  {
    PlainTokens();
    NamedOption("chown", "=1:1", "--chown=1:1");
    AdjacentOptionSurvives("COPY", "--chown=1:1", "--chmod=644", "app", "/app");
  }

  /** `COPY --chown=1 app --link` panics. */
  lemma TrailingLinkPanics(parts: seq<string>)
    requires parts == ["COPY", "--chown=1", "app", "--link"]
    ensures StripOptions(parts) == SlicePanic
  {
    LinkLineTokens();
    TrailingOptionPanics("COPY", "--chown=1", "app", "--link");
  }

  lemma LinkLineTokens()
    ensures !IsOption("COPY") && !IsOption("app")
    ensures OptionName("--chown=1") == Some("chown")
    ensures OptionName("--link") == Some("link")
  {
    LinkOption();
    ChownOption();
    PlainTokens();
  }

  lemma ChownOption()
    ensures OptionName("--chown=1") == Some("chown")
  {
    NamedOption("chown", "=1", "--chown=1");
  }

  lemma LinkOption()
    ensures OptionName("--link") == Some("link")
  {
    NamedOption("link", "", "--link");
  }

  lemma PlainTokens()
    ensures !IsOption("COPY") && !IsOption("app") && !IsOption("/app")
  {
    NoDashNoOption("COPY");
    NoDashNoOption("app");
    NoDashNoOption("/app");
  }

  lemma NamedOption(w: string, rest: string, t: string)
    requires w != [] && (forall i :: 0 <= i < |w| ==> IsLower(w[i]))
    requires rest == [] || !IsLower(rest[0])
    requires t == "--" + w + rest
    ensures OptionName(t) == Some(w)
  {
    OptionNameOf(w, rest);
  }
}
