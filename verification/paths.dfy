/** Slash-separated paths as Go's `path/filepath` treats them on Unix:
    `IsAbs`, `Clean` and `Join` (the lexical operations the resolver and the
    sync step use). `filepath.Abs` and `filepath.Rel` consult the process's
    working directory and are oracles of the resolver instead. */
module Paths {

  predicate IsAbs(p: string)
  {
    |p| > 0 && p[0] == '/'
  }

  /** A path element: non-empty and free of '/'. */
  predicate IsElement(x: string)
  {
    x != [] && '/' !in x
  }

  predicate AllElements(xs: seq<string>)
  {
    forall i :: 0 <= i < |xs| ==> IsElement(xs[i])
  }

  /** The first element of `p` (the text before its first '/'). */
  function Head(p: string): (h: string)
    ensures |h| <= |p| && h == p[..|h|] && '/' !in h
    ensures |h| < |p| ==> p[|h|] == '/'
  {
    if p == [] || p[0] == '/' then [] else [p[0]] + Head(p[1..])
  }

  /** The non-empty elements of `p`, in order: runs of '/' separate them,
      so "a//b/" gives ["a", "b"]. */
  function Elements(p: string): (xs: seq<string>)
    ensures AllElements(xs)
    decreases |p|
  {
    if p == [] then []
    else if p[0] == '/' then Elements(p[1..])
    else
      var h := Head(p);
      [h] + Elements(p[|h|..])
  }

  /** Go's lexical processing of the elements: "." is dropped, ".." removes
      the element before it, a ".." that has nothing to remove is dropped in a
      rooted path and kept in a relative one. */
  function Lex(xs: seq<string>, rooted: bool, acc: seq<string>): (r: seq<string>)
    requires AllElements(acc) && (rooted ==> ".." !in acc)
    requires AllElements(xs)
    ensures AllElements(r) && (rooted ==> ".." !in r)
    ensures "." !in acc ==> "." !in r
    decreases |xs|
  {
    if xs == [] then acc
    else if xs[0] == "." then Lex(xs[1..], rooted, acc)
    else if xs[0] == ".." then
      if |acc| > 0 && acc[|acc| - 1] != ".." then Lex(xs[1..], rooted, acc[..|acc| - 1])
      else if rooted then Lex(xs[1..], rooted, acc)
      else Lex(xs[1..], rooted, acc + [".."])
    else Lex(xs[1..], rooted, acc + [xs[0]])
  }

  /** The elements joined with single slashes. */
  function JoinElements(xs: seq<string>): (s: string)
    requires AllElements(xs)
    ensures xs == [] <==> s == []
    ensures s != [] ==> s[0] != '/' && s[|s| - 1] != '/'
  {
    if xs == [] then []
    else if |xs| == 1 then xs[0]
    else xs[0] + "/" + JoinElements(xs[1..])
  }

  /** `filepath.Clean`: the shortest lexically equivalent path. The result is
      never empty, is absolute exactly when `p` is, and ends with '/' only
      when it is the root "/". */
  function Clean(p: string): (r: string)
    ensures r != []
    ensures IsAbs(r) <==> IsAbs(p)
    ensures r[|r| - 1] == '/' ==> r == "/"
  {
    if p == [] then "."
    else
      var rooted := p[0] == '/';
      var s := JoinElements(Lex(Elements(p), rooted, []));
      if rooted then "/" + s
      else if s == [] then "."
      else s
  }

  /** `filepath.Join(a, b)`: the non-empty arguments joined by '/' and
      cleaned; "" when both are empty. */
  function Join(a: string, b: string): (r: string)
    ensures a != [] || b != [] ==> r != [] && (r[|r| - 1] == '/' ==> r == "/")
    ensures IsAbs(a) ==> IsAbs(r)
    ensures a == [] ==> (IsAbs(r) <==> IsAbs(b))
  {
    if a != [] then Clean(a + "/" + b)
    else if b != [] then Clean(b)
    else []
  }
}
