/** The containment filter at the end of `buildSources`
    (pkg/start/gen2.go:717-749): an entry is dropped when a LATER entry's
    local path is a string prefix of its own and the two map consistently
    into the container, either to the same remote path or with the same
    relative path below it. */
module Containment {
  import opened Wrappers
  import opened Text
  import opened Sources

  type Rel = (string, string) -> Option<string>

  /** Entry `j` covers entry `i`. */
  predicate Covers(s: seq<BuildSource>, i: nat, j: nat, rel: Rel)
    requires i < |s| && j < |s|
  {
    && HasPrefix(s[i].local, s[j].local)
    && (|| s[i].remote == s[j].remote
        || (&& rel(s[j].local, s[i].local).Some?
            && rel(s[j].remote, s[i].remote).Some?
            && rel(s[j].local, s[i].local) == rel(s[j].remote, s[i].remote)))
  }

  /** Comparing `i` with `j` needs `filepath.Rel`, and it fails. */
  predicate Breaks(s: seq<BuildSource>, i: nat, j: nat, rel: Rel)
    requires i < |s| && j < |s|
  {
    && HasPrefix(s[i].local, s[j].local)
    && s[i].remote != s[j].remote
    && (rel(s[j].local, s[i].local).None? || rel(s[j].remote, s[i].remote).None?)
  }

  /** No entry in `[j, k)` decides the fate of `i`. */
  predicate Clear(s: seq<BuildSource>, i: nat, j: nat, k: nat, rel: Rel)
    requires i < |s| && k <= |s|
  {
    forall m :: j <= m < k ==> !Covers(s, i, m, rel) && !Breaks(s, i, m, rel)
  }

  datatype Verdict = Keep | Drop | Fail(err: BuildError)

  /** The inner loop for entry `i`, from `j` on: the first later entry that
      covers `i` drops it, the first whose comparison fails is an error, and
      reaching the end keeps it (see `ScanKeep`, `ScanDrop`, `ScanFail`). */
  function ScanFrom(s: seq<BuildSource>, i: nat, j: nat, rel: Rel): Verdict
    requires i < j <= |s|
    decreases |s| - j
  {
    if j == |s| then Keep
    else if !HasPrefix(s[i].local, s[j].local) then ScanFrom(s, i, j + 1, rel)
    else if s[i].remote == s[j].remote then Drop
    else match rel(s[j].local, s[i].local)
      case None => Fail(RelFailed(s[j].local, s[i].local))
      case Some(rl) =>
        match rel(s[j].remote, s[i].remote)
        case None => Fail(RelFailed(s[j].remote, s[i].remote))
        case Some(rr) => if rl == rr then Drop else ScanFrom(s, i, j + 1, rel)
  }

  /** One step of the scan: the entry at `j` either decides (it covers `i`,
      or its comparison fails) or the scan moves on to `j + 1`. */
  lemma ScanStep(s: seq<BuildSource>, i: nat, j: nat, rel: Rel)
    requires i < j < |s|
    ensures Covers(s, i, j, rel) ==> ScanFrom(s, i, j, rel) == Drop
    ensures Breaks(s, i, j, rel) ==> ScanFrom(s, i, j, rel).Fail?
    ensures !Covers(s, i, j, rel) && !Breaks(s, i, j, rel) ==> ScanFrom(s, i, j, rel) == ScanFrom(s, i, j + 1, rel)
    ensures !(Covers(s, i, j, rel) && Breaks(s, i, j, rel))
  {
  }

  lemma ClearStep(s: seq<BuildSource>, i: nat, j: nat, k: nat, rel: Rel)
    requires i < |s| && j < k <= |s|
    ensures Clear(s, i, j, k, rel) <==> !Covers(s, i, j, rel) && !Breaks(s, i, j, rel) && Clear(s, i, j + 1, k, rel)
  {
  }

  /** The scan keeps `i` exactly when no entry from `j` on decides. */
  lemma {:induction false} ScanKeep(s: seq<BuildSource>, i: nat, j: nat, rel: Rel)
    requires i < j <= |s|
    ensures ScanFrom(s, i, j, rel) == Keep <==> Clear(s, i, j, |s|, rel)
    decreases |s| - j
  {
    if j < |s| {
      ScanStep(s, i, j, rel);
      ClearStep(s, i, j, |s|, rel);
      ScanKeep(s, i, j + 1, rel);
    }
  }

  /** The scan drops `i` exactly when the first deciding entry covers it. */
  lemma {:induction false} ScanDrop(s: seq<BuildSource>, i: nat, j: nat, rel: Rel)
    requires i < j <= |s|
    ensures ScanFrom(s, i, j, rel) == Drop
            <==> exists k :: j <= k < |s| && Covers(s, i, k, rel) && Clear(s, i, j, k, rel)
    decreases |s| - j
  {
    if j < |s| {
      ScanStep(s, i, j, rel);
      ScanDrop(s, i, j + 1, rel);
      if Covers(s, i, j, rel) {
        assert Clear(s, i, j, j, rel);
      } else if !Breaks(s, i, j, rel) {
        if exists k :: j + 1 <= k < |s| && Covers(s, i, k, rel) && Clear(s, i, j + 1, k, rel) {
          var k :| j + 1 <= k < |s| && Covers(s, i, k, rel) && Clear(s, i, j + 1, k, rel);
          ClearStep(s, i, j, k, rel);
        }
        if exists k :: j <= k < |s| && Covers(s, i, k, rel) && Clear(s, i, j, k, rel) {
          var k :| j <= k < |s| && Covers(s, i, k, rel) && Clear(s, i, j, k, rel);
          ClearStep(s, i, j, k, rel);
        }
      } else {
        forall k | j <= k < |s| && Covers(s, i, k, rel) ensures !Clear(s, i, j, k, rel) {
          if k > j {
            ClearStep(s, i, j, k, rel);
          }
        }
      }
    }
  }

  /** The scan fails exactly when the first deciding entry is one whose
      comparison fails. */
  lemma {:induction false} ScanFail(s: seq<BuildSource>, i: nat, j: nat, rel: Rel)
    requires i < j <= |s|
    ensures ScanFrom(s, i, j, rel).Fail?
            <==> exists k :: j <= k < |s| && Breaks(s, i, k, rel) && Clear(s, i, j, k, rel)
    decreases |s| - j
  {
    if j < |s| {
      ScanStep(s, i, j, rel);
      ScanFail(s, i, j + 1, rel);
      if Breaks(s, i, j, rel) {
        assert Clear(s, i, j, j, rel);
      } else if !Covers(s, i, j, rel) {
        if exists k :: j + 1 <= k < |s| && Breaks(s, i, k, rel) && Clear(s, i, j + 1, k, rel) {
          var k :| j + 1 <= k < |s| && Breaks(s, i, k, rel) && Clear(s, i, j + 1, k, rel);
          ClearStep(s, i, j, k, rel);
        }
        if exists k :: j <= k < |s| && Breaks(s, i, k, rel) && Clear(s, i, j, k, rel) {
          var k :| j <= k < |s| && Breaks(s, i, k, rel) && Clear(s, i, j, k, rel);
          ClearStep(s, i, j, k, rel);
        }
      } else {
        forall k | j <= k < |s| && Breaks(s, i, k, rel) ensures !Clear(s, i, j, k, rel) {
          if k > j {
            ClearStep(s, i, j, k, rel);
          }
        }
      }
    }
  }

  /** The outer loop from entry `i` on: the surviving entries in order, or
      the first error. */
  function DedupFrom(s: seq<BuildSource>, i: nat, rel: Rel): Result<seq<BuildSource>, BuildError>
    requires i <= |s|
    decreases |s| - i
  {
    if i == |s| then Success([])
    else match ScanFrom(s, i, i + 1, rel)
      case Fail(e) => Failure(e)
      case Drop => DedupFrom(s, i + 1, rel)
      case Keep =>
        match DedupFrom(s, i + 1, rel)
        case Success(t) => Success([s[i]] + t)
        case Failure(e) => Failure(e)
  }

  /** Some later entry covers entry `i`. */
  predicate Covered(s: seq<BuildSource>, i: nat, rel: Rel)
    requires i < |s|
  {
    exists j :: i < j < |s| && Covers(s, i, j, rel)
  }

  /** The entries from `i` on that no later entry covers, in order. */
  function Survivors(s: seq<BuildSource>, i: nat, rel: Rel): seq<BuildSource>
    requires i <= |s|
    decreases |s| - i
  {
    if i == |s| then []
    else (if Covered(s, i, rel) then [] else [s[i]]) + Survivors(s, i + 1, rel)
  }

  /** `a` is `b` with some entries deleted, the rest in their order. */
  predicate Subsequence<T(==)>(a: seq<T>, b: seq<T>)
    decreases |b|
  {
    if a == [] then true
    else if b == [] then false
    else (a[0] == b[0] && Subsequence(a[1..], b[1..])) || Subsequence(a, b[1..])
  }

  lemma {:induction false} SubsequenceMembers<T>(a: seq<T>, b: seq<T>)
    requires Subsequence(a, b)
    ensures forall x :: x in a ==> x in b
    decreases |b|
  {
    if a != [] {
      if a[0] == b[0] && Subsequence(a[1..], b[1..]) {
        SubsequenceMembers(a[1..], b[1..]);
        assert forall x :: x in a ==> x == a[0] || x in a[1..];
      } else {
        SubsequenceMembers(a, b[1..]);
      }
      assert forall x :: x in b[1..] ==> x in b;
    }
  }

  /** Prepends `p` to a successful result. */
  function Then(p: seq<BuildSource>, r: Result<seq<BuildSource>, BuildError>): (q: Result<seq<BuildSource>, BuildError>)
    ensures q.Success? <==> r.Success?
    ensures q.Success? ==> q.value == p + r.value
    ensures q.Failure? ==> q.error == r.error
  {
    match r
    case Success(t) => Success(p + t)
    case Failure(e) => Failure(e)
  }

  lemma ThenThen(p: seq<BuildSource>, q: seq<BuildSource>, r: Result<seq<BuildSource>, BuildError>)
    ensures Then(p, Then(q, r)) == Then(p + q, r)
    ensures Then([], r) == r
  {
    if r.Success? {
      assert [] + r.value == r.value;
      assert p + (q + r.value) == (p + q) + r.value;
    }
  }

  /** The two loops: for each entry in order, the inner scan over the later
      entries decides whether it is appended to the result. */
  method Dedup(s: seq<BuildSource>, rel: Rel) returns (r: Result<seq<BuildSource>, BuildError>)
    ensures r == DedupFrom(s, 0, rel)
  {
    var kept: seq<BuildSource> := [];
    ThenThen([], [], DedupFrom(s, 0, rel));
    for i := 0 to |s|
      invariant DedupFrom(s, 0, rel) == Then(kept, DedupFrom(s, i, rel))
    {
      var contained := false;
      var j := i + 1;
      while j < |s|
        invariant i + 1 <= j <= |s|
        invariant ScanFrom(s, i, j, rel) == ScanFrom(s, i, i + 1, rel)
      {
        if HasPrefix(s[i].local, s[j].local) {
          if s[i].remote == s[j].remote {
            contained := true;
            break;
          }
          var rl := rel(s[j].local, s[i].local);
          if rl.None? {
            return Failure(RelFailed(s[j].local, s[i].local));
          }
          var rr := rel(s[j].remote, s[i].remote);
          if rr.None? {
            return Failure(RelFailed(s[j].remote, s[i].remote));
          }
          if rl.value == rr.value {
            contained := true;
            break;
          }
        }
        j := j + 1;
      }
      if contained {
        assert ScanFrom(s, i, i + 1, rel) == Drop;
      } else {
        assert ScanFrom(s, i, i + 1, rel) == Keep;
        ThenThen(kept, [s[i]], DedupFrom(s, i + 1, rel));
        kept := kept + [s[i]];
      }
    }
    assert kept + [] == kept;
    return Success(kept);
  }

  /** When the filter succeeds, it keeps exactly the entries no later entry
      covers. */
  lemma {:induction false} DedupKeepsUncovered(s: seq<BuildSource>, i: nat, rel: Rel)
    requires i <= |s|
    requires DedupFrom(s, i, rel).Success?
    ensures DedupFrom(s, i, rel).value == Survivors(s, i, rel)
    decreases |s| - i
  {
    if i < |s| {
      ScanCovered(s, i, rel);
      DedupKeepsUncovered(s, i + 1, rel);
    }
  }

  /** A scan that does not fail drops its entry exactly when some later
      entry covers it. */
  lemma ScanCovered(s: seq<BuildSource>, i: nat, rel: Rel)
    requires i < |s| && !ScanFrom(s, i, i + 1, rel).Fail?
    ensures ScanFrom(s, i, i + 1, rel) == Drop <==> Covered(s, i, rel)
  {
    ScanDrop(s, i, i + 1, rel);
    ScanKeep(s, i, i + 1, rel);
    if ScanFrom(s, i, i + 1, rel) == Drop {
      var k :| i + 1 <= k < |s| && Covers(s, i, k, rel) && Clear(s, i, i + 1, k, rel);
      assert Covered(s, i, rel);
    }
  }

  /** The filter fails exactly when, for some entry, the first later entry
      that decides its fate is one whose `filepath.Rel` fails. */
  lemma {:induction false} DedupFailsOnlyOnRel(s: seq<BuildSource>, i: nat, rel: Rel)
    requires i <= |s|
    ensures DedupFrom(s, i, rel).Failure?
            <==> exists a, b :: i <= a < b < |s| && Breaks(s, a, b, rel) && Clear(s, a, a + 1, b, rel)
    decreases |s| - i
  {
    if i < |s| {
      DedupFailsOnlyOnRel(s, i + 1, rel);
      ScanFail(s, i, i + 1, rel);
      if ScanFrom(s, i, i + 1, rel).Fail? {
        var b :| i + 1 <= b < |s| && Breaks(s, i, b, rel) && Clear(s, i, i + 1, b, rel);
      }
      if exists a, b :: i <= a < b < |s| && Breaks(s, a, b, rel) && Clear(s, a, a + 1, b, rel) {
        var a, b :| i <= a < b < |s| && Breaks(s, a, b, rel) && Clear(s, a, a + 1, b, rel);
        if a == i {
          assert ScanFrom(s, i, i + 1, rel).Fail?;
        }
      }
    }
  }

  lemma {:induction false} SurvivorsSubsequence(s: seq<BuildSource>, i: nat, rel: Rel)
    requires i <= |s|
    ensures Subsequence(Survivors(s, i, rel), s[i..])
    decreases |s| - i
  {
    if i < |s| {
      SurvivorsSubsequence(s, i + 1, rel);
      var a, b := Survivors(s, i, rel), s[i..];
      assert b != [] && b[1..] == s[i + 1..];
      if !Covered(s, i, rel) {
        assert a[0] == b[0] && a[1..] == Survivors(s, i + 1, rel);
      } else {
        assert a == Survivors(s, i + 1, rel);
        assert Subsequence(a, b[1..]);
      }
    }
  }

  lemma {:induction false} SurvivorsEndWithLast(s: seq<BuildSource>, i: nat, rel: Rel)
    requires i < |s|
    ensures Survivors(s, i, rel) != [] && Survivors(s, i, rel)[|Survivors(s, i, rel)| - 1] == s[|s| - 1]
    decreases |s| - i
  {
    if i == |s| - 1 {
      assert !Covered(s, i, rel);
    } else {
      SurvivorsEndWithLast(s, i + 1, rel);
    }
  }

  /** What the filter returns, when it returns a list: the input with the
      covered entries deleted, in input order, ending with the input's last
      entry. */
  lemma DedupResult(s: seq<BuildSource>, rel: Rel)
    requires DedupFrom(s, 0, rel).Success?
    ensures DedupFrom(s, 0, rel).value == Survivors(s, 0, rel)
    ensures Subsequence(DedupFrom(s, 0, rel).value, s)
    ensures s != [] ==> DedupFrom(s, 0, rel).value != []
                        && DedupFrom(s, 0, rel).value[|DedupFrom(s, 0, rel).value| - 1] == s[|s| - 1]
  {
    DedupKeepsUncovered(s, 0, rel);
    SurvivorsSubsequence(s, 0, rel);
    assert s[0..] == s;
    if s != [] {
      SurvivorsEndWithLast(s, 0, rel);
    }
  }

  /** When `filepath.Rel` answers for every pair the filter could ask about,
      the filter returns a list. */
  lemma DedupSucceeds(s: seq<BuildSource>, rel: Rel)
    requires forall a, b :: 0 <= a < b < |s| ==> !Breaks(s, a, b, rel)
    ensures DedupFrom(s, 0, rel).Success?
  {
    DedupFailsOnlyOnRel(s, 0, rel);
  }
}
