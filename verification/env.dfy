/** The running `ENV` state of the resolver and `replaceEnv`
    (pkg/start/gen2.go:771-778), which substitutes `${K}` and then `$K` for
    every variable K, one variable after another.

    Go ranges over a map in an unspecified order, and the result of
    `replaceEnv` can depend on it when one key is a prefix of another ($P and
    $PORT). The model keeps, next to the map, the order in which the keys were
    first set and substitutes in that order; the lemmas below that do not
    mention the order hold for every order. */
module EnvSubst {
  import opened Text

  datatype Env = Env(vars: map<string, string>, order: seq<string>)
  {
    /** `order` lists every key of `vars` exactly once. */
    ghost predicate Valid()
    {
      && (forall i :: 0 <= i < |order| ==> order[i] in vars)
      && (forall k :: k in vars ==> k in order)
      && (forall i, j :: 0 <= i < j < |order| ==> order[i] != order[j])
    }

    /** `env[k] = v`: a later assignment to the same key overrides the
        earlier one and keeps the key's place in the order. */
    function Set(k: string, v: string): (e: Env)
      requires Valid()
      ensures e.Valid()
      ensures e.vars == vars[k := v]
      ensures k in vars ==> e.order == order
      ensures k !in vars ==> e.order == order + [k]
    {
      if k in vars then Env(vars[k := v], order) else Env(vars[k := v], order + [k])
    }
  }

  const Empty: Env := Env(map[], [])

  /** The two `strings.Replace` calls made for one variable. */
  function SubstituteVar(s: string, k: string, v: string): string
  {
    ReplaceAll(ReplaceAll(s, "${" + k + "}", v), "$" + k, v)
  }

  /** Substitution of the variables `order[i..]`, in that order. */
  function SubstituteFrom(s: string, env: Env, i: nat): string
    requires env.Valid() && i <= |env.order|
    decreases |env.order| - i
  {
    if i == |env.order| then s
    else
      var k := env.order[i];
      SubstituteFrom(SubstituteVar(s, k, env.vars[k]), env, i + 1)
  }

  function Substitute(s: string, env: Env): string
    requires env.Valid()
  {
    SubstituteFrom(s, env, 0)
  }

  /** `replaceEnv`: reassigns `s` once per variable. */
  method ReplaceEnv(s: string, env: Env) returns (r: string)
    requires env.Valid()
    ensures r == Substitute(s, env)
  {
    r := s;
    for i := 0 to |env.order|
      invariant SubstituteFrom(r, env, i) == Substitute(s, env)
    {
      var k := env.order[i];
      var v := env.vars[k];
      r := ReplaceAll(r, "${" + k + "}", v);
      r := ReplaceAll(r, "$" + k, v);
    }
  }

  lemma NoDollarNoMatch(s: string, pat: string)
    requires '$' !in s && pat != [] && pat[0] == '$'
    ensures !Occurs(s, pat)
  {
  }

  /** A text without '$' is returned unchanged, whatever the variables. */
  lemma {:induction false} SubstituteNoDollar(s: string, env: Env, i: nat)
    requires env.Valid() && i <= |env.order|
    requires '$' !in s
    ensures SubstituteFrom(s, env, i) == s
    decreases |env.order| - i
  {
    if i < |env.order| {
      var k := env.order[i];
      var v := env.vars[k];
      NoDollarNoMatch(s, "${" + k + "}");
      ReplaceAbsent(s, "${" + k + "}", v);
      NoDollarNoMatch(s, "$" + k);
      ReplaceAbsent(s, "$" + k, v);
      SubstituteNoDollar(s, env, i + 1);
    }
  }

  /** Substituting again after every reference has been expanded changes
      nothing. */
  lemma SubstituteIdempotentWithoutDollar(s: string, env: Env)
    requires env.Valid()
    requires '$' !in Substitute(s, env)
    ensures Substitute(Substitute(s, env), env) == Substitute(s, env)
  {
    SubstituteNoDollar(Substitute(s, env), env, 0);
  }

  /** `pat` is replaced where it first occurs, after a prefix `a` that holds
      no '$', and the rest holds no '$' either. */
  lemma ReplaceOnce(a: string, pat: string, rep: string, b: string)
    requires pat != [] && pat[0] == '$'
    requires '$' !in a && '$' !in b
    ensures ReplaceAll(a + pat + b, pat, rep) == a + rep + b
  {
    assert forall k: nat :: k < |a| ==> !MatchAt(a + pat, pat, k);
    ReplaceLeftmost(a, pat, rep, b);
    NoDollarNoMatch(b, pat);
    ReplaceAbsent(b, pat, rep);
  }

  /** A one-variable environment `{k: v}`. */
  function Single(k: string, v: string): (e: Env)
    ensures e.Valid() && e.vars == map[k := v] && e.order == [k]
  {
    Empty.Set(k, v)
  }

  /** With the single variable k=v, `a${k}b` becomes `avb` when none of
      `a`, `v`, `b` holds a '$'. */
  lemma {:induction false} SingleBraced(a: string, k: string, v: string, b: string)
    requires '$' !in a && '$' !in v && '$' !in b
    ensures Substitute(a + "${" + k + "}" + b, Single(k, v)) == a + v + b
  {
    var s := a + "${" + k + "}" + b;
    assert s == a + ("${" + k + "}") + b;
    ReplaceOnce(a, "${" + k + "}", v, b);
    assert '$' !in a + v + b;
    NoDollarNoMatch(a + v + b, "$" + k);
    ReplaceAbsent(a + v + b, "$" + k, v);
    assert SubstituteVar(s, k, v) == a + v + b;
    SubstituteNoDollar(a + v + b, Single(k, v), 1);
  }

  /** With the single variable k=v, `a$kb` becomes `avb` when none of `a`,
      `v`, `b`, `k` holds a '$' and k does not start with '{'. */
  lemma {:induction false} SingleBare(a: string, k: string, v: string, b: string)
    requires '$' !in a && '$' !in v && '$' !in b
    requires k != [] && k[0] != '{' && '$' !in k
    ensures Substitute(a + "$" + k + b, Single(k, v)) == a + v + b
  {
    var s := a + "$" + k + b;
    var braced := "${" + k + "}";
    BracedAbsent(a, k, b);
    ReplaceAbsent(s, braced, v);
    assert s == a + ("$" + k) + b;
    ReplaceOnce(a, "$" + k, v, b);
    assert SubstituteVar(s, k, v) == a + v + b;
    SubstituteNoDollar(a + v + b, Single(k, v), 1);
  }

  /** `${k}` does not occur in `a$kb` when only the one '$' is there and k
      does not start with '{'. */
  lemma BracedAbsent(a: string, k: string, b: string)
    requires '$' !in a && '$' !in b
    requires k != [] && k[0] != '{' && '$' !in k
    ensures !Occurs(a + "$" + k + b, "${" + k + "}")
  {
    var s := a + "$" + k + b;
    var braced := "${" + k + "}";
    forall j: nat | j <= |s| ensures !MatchAt(s, braced, j) {
      if j + |braced| <= |s| {
        assert s[j..j + |braced|][0] == s[j] && s[j..j + |braced|][1] == s[j + 1];
        if j < |a| {
          assert s[j] == a[j];
        } else if j == |a| {
          assert s[j + 1] == k[0];
        } else if j < |a| + 1 + |k| {
          assert s[j] == k[j - |a| - 1];
        } else {
          assert s[j] == b[j - |a| - 1 - |k|];
        }
      }
    }
  }

  /** With PORT=8080, `/${PORT}/app` becomes `/8080/app`. */
  lemma PortBracedExample()
    ensures Substitute("/${PORT}/app", Single("PORT", "8080")) == "/8080/app"
  {
    PortLiterals();
    SingleBraced("/", "PORT", "8080", "/app");
  }

  /** With PORT=8080, `/$PORT/app` becomes `/8080/app` too. */
  lemma PortBareExample()
    ensures Substitute("/$PORT/app", Single("PORT", "8080")) == "/8080/app"
  {
    PortLiterals();
    SingleBare("/", "PORT", "8080", "/app");
  }

  lemma PortLiterals()
    ensures "/" + "${" + "PORT" + "}" + "/app" == "/${PORT}/app"
    ensures "/" + "$" + "PORT" + "/app" == "/$PORT/app"
    ensures "/" + "8080" + "/app" == "/8080/app"
  {
  }

  /** Substituting `/8080/app` again leaves it as it is. */
  lemma PortStableExample()
    ensures Substitute("/8080/app", Single("PORT", "8080")) == "/8080/app"
  {
    SubstituteNoDollar("/8080/app", Single("PORT", "8080"), 0);
  }
}
