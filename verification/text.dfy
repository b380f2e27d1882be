/** The handful of Go `strings` operations the resolver relies on, written out
    so that their behaviour on every input is part of the model:
    `strings.Fields`, `strings.TrimSpace`, `strings.HasPrefix`,
    `strings.Replace(s, old, new, -1)` and the case-insensitive keyword test
    `strings.ToUpper(tok) == KW`. */
module Text {

  /** Go's `unicode.IsSpace`: the Latin-1 white space characters plus the
      other code points with the Unicode White_Space property. */
  predicate IsSpace(c: char)
  {
    c == ' ' || c == '\t' || c == '\n' || c == '\U{000B}' || c == '\U{000C}' || c == '\r'
    || c == '\U{0085}' || c == '\U{00A0}' || c == '\U{1680}'
    || ('\U{2000}' <= c <= '\U{200A}')
    || c == '\U{2028}' || c == '\U{2029}' || c == '\U{202F}' || c == '\U{205F}' || c == '\U{3000}'
  }

  predicate NoSpace(w: string)
  {
    forall i :: 0 <= i < |w| ==> !IsSpace(w[i])
  }

  predicate HasPrefix(s: string, p: string)
  {
    |p| <= |s| && s[..|p|] == p
  }

  /** The longest prefix of `s` that holds no white space. */
  function Word(s: string): (w: string)
    ensures |w| <= |s| && w == s[..|w|]
    ensures NoSpace(w)
    ensures |w| < |s| ==> IsSpace(s[|w|])
    ensures s != [] && !IsSpace(s[0]) ==> |w| > 0
  {
    if s == [] || IsSpace(s[0]) then [] else [s[0]] + Word(s[1..])
  }

  /** `strings.Fields`: the maximal runs of non-space characters, in order. */
  function Fields(s: string): (r: seq<string>)
    ensures forall i :: 0 <= i < |r| ==> r[i] != [] && NoSpace(r[i])
    decreases |s|
  {
    if s == [] then []
    else if IsSpace(s[0]) then Fields(s[1..])
    else
      var w := Word(s);
      [w] + Fields(s[|w|..])
  }

  function Concat(ws: seq<string>): string
  {
    if ws == [] then [] else ws[0] + Concat(ws[1..])
  }

  /** `s` with every white-space character deleted. */
  function DropSpaces(s: string): string
  {
    if s == [] then [] else (if IsSpace(s[0]) then [] else [s[0]]) + DropSpaces(s[1..])
  }

  lemma {:induction false} DropSpacesAppend(a: string, b: string)
    ensures DropSpaces(a + b) == DropSpaces(a) + DropSpaces(b)
  {
    if a != [] {
      assert (a + b)[1..] == a[1..] + b;
      DropSpacesAppend(a[1..], b);
    } else {
      assert a + b == b;
    }
  }

  lemma {:induction false} DropSpacesNoSpace(w: string)
    requires NoSpace(w)
    ensures DropSpaces(w) == w
  {
    if w != [] {
      DropSpacesNoSpace(w[1..]);
    }
  }

  /** The fields hold exactly the non-space characters of the line, in
      order: nothing but white space is lost by tokenising. */
  lemma {:induction false} FieldsKeepAllText(s: string)
    ensures Concat(Fields(s)) == DropSpaces(s)
    decreases |s|
  {
    if s == [] {
    } else if IsSpace(s[0]) {
      FieldsKeepAllText(s[1..]);
    } else {
      var w := Word(s);
      assert s == w + s[|w|..];
      FieldsKeepAllText(s[|w|..]);
      DropSpacesAppend(w, s[|w|..]);
      DropSpacesNoSpace(w);
      assert Fields(s)[1..] == Fields(s[|w|..]);
    }
  }

  /** A line with no white space at all is one field (or none, if empty). */
  lemma {:induction false} FieldsOfWord(w: string)
    requires NoSpace(w)
    ensures Fields(w) == if w == [] then [] else [w]
  {
    if w != [] {
      var v := Word(w);
      WordOfNoSpace(w);
      assert w[|v|..] == [];
    }
  }

  lemma {:induction false} WordOfNoSpace(w: string)
    requires NoSpace(w)
    ensures Word(w) == w
  {
    if w != [] {
      WordOfNoSpace(w[1..]);
    }
  }

  function TrimLeft(s: string): (r: string)
    ensures |r| <= |s| && r == s[|s| - |r|..]
    ensures r == [] || !IsSpace(r[0])
    ensures forall i :: 0 <= i < |s| - |r| ==> IsSpace(s[i])
  {
    if s != [] && IsSpace(s[0]) then TrimLeft(s[1..]) else s
  }

  function TrimRight(s: string): (r: string)
    ensures |r| <= |s| && r == s[..|r|]
    ensures r == [] || !IsSpace(r[|r| - 1])
    ensures forall i :: |r| <= i < |s| ==> IsSpace(s[i])
  {
    if s != [] && IsSpace(s[|s| - 1]) then TrimRight(s[..|s| - 1]) else s
  }

  /** `r` is `s` with the white space before index `i` and after index
      `i + |r|` removed. */
  predicate TrimmedAt(s: string, r: string, i: nat)
  {
    i + |r| <= |s| && r == s[i..i + |r|]
    && (forall k :: 0 <= k < i ==> IsSpace(s[k]))
    && (forall k :: i + |r| <= k < |s| ==> IsSpace(s[k]))
  }

  /** `strings.TrimSpace`: the slice of `s` left after removing leading and
      trailing white space; only white space is removed. */
  function TrimSpace(s: string): (r: string)
    ensures r == [] || (!IsSpace(r[0]) && !IsSpace(r[|r| - 1]))
    ensures exists i: nat :: TrimmedAt(s, r, i)
  {
    var l := TrimLeft(s);
    var r := TrimRight(l);
    TrimmedSlice(s, l, r);
    r
  }

  /** Trimming the left end, then the right end of what remains. */
  lemma TrimmedSlice(s: string, l: string, r: string)
    requires |l| <= |s| && l == s[|s| - |l|..] && forall k :: 0 <= k < |s| - |l| ==> IsSpace(s[k])
    requires |r| <= |l| && r == l[..|r|] && forall k :: |r| <= k < |l| ==> IsSpace(l[k])
    ensures TrimmedAt(s, r, |s| - |l|)
  {
    var i := |s| - |l|;
    assert r == s[i..i + |r|];
    forall k | i + |r| <= k < |s| ensures IsSpace(s[k]) {
      assert s[k] == l[k - i];
    }
  }

  /** `old` occurs in `s` starting at index `k`. */
  predicate MatchAt(s: string, pat: string, k: nat)
  {
    k + |pat| <= |s| && s[k..k + |pat|] == pat
  }

  predicate Occurs(s: string, pat: string)
  {
    exists k: nat :: k <= |s| && MatchAt(s, pat, k)
  }

  /** `strings.Replace(s, pat, rep, -1)`: every non-overlapping occurrence of
      `pat`, found left to right, is replaced by `rep`; the inserted text is
      not scanned again. */
  function ReplaceAll(s: string, pat: string, rep: string): string
    requires pat != []
    decreases |s|
  {
    if |s| < |pat| then s
    else if s[..|pat|] == pat then rep + ReplaceAll(s[|pat|..], pat, rep)
    else [s[0]] + ReplaceAll(s[1..], pat, rep)
  }

  /** Where `pat` does not occur, replacing it changes nothing. */
  lemma {:induction false} ReplaceAbsent(s: string, pat: string, rep: string)
    requires pat != []
    requires !Occurs(s, pat)
    ensures ReplaceAll(s, pat, rep) == s
    decreases |s|
  {
    if |s| >= |pat| {
      assert !MatchAt(s, pat, 0);
      forall k: nat | MatchAt(s[1..], pat, k) ensures false {
        assert s[1..][k..k + |pat|] == s[k + 1..k + 1 + |pat|];
        assert MatchAt(s, pat, k + 1);
      }
      ReplaceAbsent(s[1..], pat, rep);
    }
  }

  /** The leftmost occurrence is replaced and the scan resumes after it:
      when `pat` first occurs in `a + pat + b` at index |a|, the result is
      `a`, then `rep`, then the replacement of `b`. */
  lemma {:induction false} ReplaceLeftmost(a: string, pat: string, rep: string, b: string)
    requires pat != []
    requires forall k: nat :: k < |a| ==> !MatchAt(a + pat, pat, k)
    ensures ReplaceAll(a + pat + b, pat, rep) == a + rep + ReplaceAll(b, pat, rep)
    decreases |a|
  {
    if a == [] {
      assert a + pat + b == pat + b;
      ReplaceAtStart(pat, rep, b);
    } else {
      NoMatchShift(a, pat);
      NoMatchHead(a, pat, b, rep);
      ReplaceLeftmost(a[1..], pat, rep, b);
      ConsJoin(ReplaceAll(a + pat + b, pat, rep), ReplaceAll(a[1..] + pat + b, pat, rep), a, rep, ReplaceAll(b, pat, rep));
    }
  }

  lemma ConsJoin(x: string, y: string, a: string, rep: string, tail: string)
    requires a != [] && x == [a[0]] + y && y == a[1..] + rep + tail
    ensures x == a + rep + tail
  {
    assert a == [a[0]] + a[1..];
  }

  lemma ReplaceAtStart(pat: string, rep: string, b: string)
    requires pat != []
    ensures ReplaceAll(pat + b, pat, rep) == rep + ReplaceAll(b, pat, rep)
  {
    assert (pat + b)[..|pat|] == pat;
    assert (pat + b)[|pat|..] == b;
  }

  lemma NoMatchHead(a: string, pat: string, b: string, rep: string)
    requires pat != [] && a != []
    requires !MatchAt(a + pat, pat, 0)
    ensures ReplaceAll(a + pat + b, pat, rep) == [a[0]] + ReplaceAll(a[1..] + pat + b, pat, rep)
  {
    var s := a + pat + b;
    assert s[..|pat|] == (a + pat)[0..|pat|];
    assert s[1..] == a[1..] + pat + b;
  }

  lemma NoMatchShift(a: string, pat: string)
    requires a != []
    requires forall k: nat :: k < |a| ==> !MatchAt(a + pat, pat, k)
    ensures !MatchAt(a + pat, pat, 0)
    ensures forall k: nat :: k < |a[1..]| ==> !MatchAt(a[1..] + pat, pat, k)
  {
    forall k: nat | k < |a[1..]| ensures !MatchAt(a[1..] + pat, pat, k) {
      assert !MatchAt(a + pat, pat, k + 1);
      assert (a[1..] + pat)[k..] == (a + pat)[k + 1..];
    }
  }

  /** The upper-case image that `strings.ToUpper` gives a character, as far
      as comparing with an ASCII keyword goes: ASCII letters, and the two
      non-ASCII letters whose upper case is ASCII (dotless i, long s). Every
      other character keeps a value that equals no ASCII upper-case letter. */
  function KeywordUpper(c: char): (u: char)
    ensures 'A' <= u <= 'Z' ==> c == u || ('a' <= c <= 'z' && c as int == u as int + 32)
                                || c == '\U{0131}' || c == '\U{017F}'
  {
    if 'a' <= c <= 'z' then (c as int - 32) as char
    else if c == '\U{0131}' then 'I'
    else if c == '\U{017F}' then 'S'
    else c
  }

  /** `strings.ToUpper(tok) == kw` for an upper-case ASCII keyword `kw`. */
  predicate IsKeyword(tok: string, kw: string)
  {
    |tok| == |kw| && forall i :: 0 <= i < |tok| ==> KeywordUpper(tok[i]) == kw[i]
  }

  /** The text of `s` before its first character from `stops`. */
  function Before(s: string, stops: set<char>): (r: string)
    ensures |r| <= |s| && r == s[..|r|]
    ensures forall k :: 0 <= k < |r| ==> r[k] !in stops
    ensures |r| < |s| ==> s[|r|] in stops
  {
    if s == [] || s[0] in stops then [] else [s[0]] + Before(s[1..], stops)
  }

  lemma {:induction false} BeforeNone(s: string, stops: set<char>)
    requires forall k :: 0 <= k < |s| ==> s[k] !in stops
    ensures Before(s, stops) == s
  {
    if s != [] {
      BeforeNone(s[1..], stops);
    }
  }

  /** `bufio.ScanLines` drops one carriage return at the end of a line. */
  function DropCR(l: string): (r: string)
    ensures r == l || (l == r + "\r")
  {
    if l != [] && l[|l| - 1] == '\r' then l[..|l| - 1] else l
  }

  /** The lines a `bufio.Scanner` yields: the text between newlines, a last
      line without newline included, no empty line after a final newline. */
  function Lines(data: string): (ls: seq<string>)
    ensures forall k :: 0 <= k < |ls| ==> '\n' !in ls[k]
    ensures |ls| <= |data|
    decreases |data|
  {
    if data == [] then []
    else
      var l := Before(data, {'\n'});
      if |l| == |data| then [DropCR(l)] else [DropCR(l)] + Lines(data[|l| + 1..])
  }

  lemma LinesCons(l: string, rest: string)
    requires '\n' !in l
    ensures Lines(l + "\n" + rest) == [DropCR(l)] + Lines(rest)
  {
    var data := l + "\n" + rest;
    BeforeOf(l, "\n" + rest, {'\n'});
    assert data == l + ("\n" + rest);
    assert data[|l| + 1..] == rest;
  }

  lemma {:induction false} BeforeOf(a: string, b: string, stops: set<char>)
    requires forall k :: 0 <= k < |a| ==> a[k] !in stops
    requires b != [] && b[0] in stops
    ensures Before(a + b, stops) == a
  {
    if a != [] {
      assert (a + b)[1..] == a[1..] + b;
      BeforeOf(a[1..], b, stops);
    } else {
      assert a + b == b;
    }
  }
}
