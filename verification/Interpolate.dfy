/** Template expansion: the loop that rewrites a string in place and searches it
    again from its start after every substitution. */
module Interpolate {
  import opened ExecSlot
  import opened Expr
  import opened GuardEval
  import opened Text
  import opened Tokenizer

  predicate PairAt(s: string, c: char, k: int) {
    0 <= k && k + 1 < |s| && s[k] == c && s[k + 1] == c
  }

  /** strings.Index of a doubled character in the text from position `k` on. */
  function PairFrom(s: string, c: char, k: nat): (r: Option<nat>)
    ensures r.Some? ==> k <= r.value && PairAt(s, c, r.value)
    ensures forall x :: k <= x && (r.Some? ==> x < r.value) ==> !PairAt(s, c, x)
    decreases |s| - k
  {
    if k + 1 >= |s| then None else if PairAt(s, c, k) then Some(k) else PairFrom(s, c, k + 1)
  }

  predicate NoPair(s: string, c: char) {
    PairFrom(s, c, 0).None?
  }

  /** Where the next placeholder opens, and where the braces that close it start. */
  function Next(s: string): (r: Option<(nat, nat)>)
    ensures r.Some? ==> r.value.0 + 2 <= r.value.1 <= |s| - 2
  {
    match PairFrom(s, '{', 0)
    case None => None
    case Some(i) =>
      match PairFrom(s, '}', i)
      case None => None
      case Some(e) =>
        assert PairAt(s, '}', e) && PairAt(s, '{', i);
        Some((i, e))
  }

  /** One turn of the loop. */
  function Rewrite(s: string, f: string -> string): string
    requires Next(s).Some?
  {
    var (i, e) := Next(s).value;
    s[..i] + f(s[i + 2..e]) + s[e + 2..]
  }

  /** The string after at most `n` turns; it no longer changes once no placeholder is left. */
  function After(s: string, f: string -> string, n: nat): string
    decreases n
  {
    if n == 0 || Next(s).None? then s else After(Rewrite(s, f), f, n - 1)
  }

  predicate Finishes(s: string, f: string -> string, n: nat) {
    Next(After(s, f, n)).None?
  }

  ghost predicate EndsIn(s: string, f: string -> string, r: string) {
    exists n: nat :: Finishes(s, f, n) && After(s, f, n) == r
  }

  /** A single pass from left to right that never looks at a value again. */
  function Pass(s: string, f: string -> string): string
    decreases |s|
  {
    match Next(s)
    case None => s
    case Some((i, e)) => s[..i] + f(s[i + 2..e]) + Pass(s[e + 2..], f)
  }

  /** A value that cannot open a placeholder, alone or with what follows it. */
  predicate Clean(v: string) {
    NoPair(v, '{') && (v == "" || v[|v| - 1] != '{')
  }

  /** How many placeholders a single pass finds. */
  function Turns(s: string): nat
    decreases |s|
  {
    match Next(s)
    case None => 0
    case Some((i, e)) => 1 + Turns(s[e + 2..])
  }

  /** Every value a single pass puts in is clean. */
  predicate AllClean(s: string, f: string -> string)
    decreases |s|
  {
    match Next(s)
    case None => true
    case Some((i, e)) => Clean(f(s[i + 2..e])) && AllClean(s[e + 2..], f)
  }

  lemma PairInSum(d: string, s: string, c: char, k: int)
    requires d == "" || d[|d| - 1] != c
    ensures PairAt(d + s, c, k) == (PairAt(d, c, k) || PairAt(s, c, k - |d|))
  {
  }

  /** What is already written does not hide or move the next placeholder. */
  lemma NextAfterClean(d: string, s: string)
    requires Clean(d)
    ensures Next(s).None? ==> Next(d + s).None?
    ensures Next(s).Some? ==> Next(d + s) == Some((|d| + Next(s).value.0, |d| + Next(s).value.1))
  {
    forall k ensures PairAt(d + s, '{', k) == PairAt(s, '{', k - |d|) { PairInSum(d, s, '{', k); }
    match PairFrom(s, '{', 0) {
      case None =>
      case Some(i) =>
        assert PairAt(d + s, '{', |d| + i);
        assert PairFrom(d + s, '{', 0) == Some(|d| + i);
        forall k | |d| + i <= k ensures PairAt(d + s, '}', k) == PairAt(s, '}', k - |d|) { }
        match PairFrom(s, '}', i) {
          case None =>
          case Some(e) => assert PairAt(d + s, '}', |d| + e);
        }
    }
  }

  /** The text before a placeholder is clean, and stays so when clean text is put around it. */
  lemma CleanPrefix(d: string, s: string, v: string)
    requires Clean(d) && Clean(v) && Next(s).Some?
    ensures Clean(d + s[..Next(s).value.0] + v)
  {
    var i := Next(s).value.0;
    var p := s[..i];
    forall k ensures !PairAt(p, '{', k) { assert !PairAt(s, '{', k) || k >= i; }
    assert p == "" || !PairAt(s, '{', i - 1);
    CleanSum(d, p);
    CleanSum(d + p, v);
  }

  lemma CleanSum(d: string, p: string)
    requires Clean(d) && Clean(p)
    ensures Clean(d + p)
  {
    forall k ensures !PairAt(d + p, '{', k) { PairInSum(d, p, '{', k); }
  }

  /** A turn rewrites the part still to be read and leaves what is written alone. */
  lemma RewriteAfterClean(d: string, s: string, f: string -> string)
    requires Clean(d) && Next(s).Some?
    ensures Next(d + s).Some?
    ensures Rewrite(d + s, f) == d + Rewrite(s, f)
  {
    hide Clean, Next, Rewrite;
    NextAfterClean(d, s);
    var i, e := Next(s).value.0, Next(s).value.1;
    SliceAfter(d, s, i + 2, e);
    SliceAfter(d, s, e + 2, |s|);
    assert (d + s)[..|d| + i] == d + s[..i];
    RewriteIs(s, f);
    RewriteIs(d + s, f);
    Around(d, s[..i], f(s[i + 2..e]), s[e + 2..]);
  }

  lemma SliceAfter(d: string, s: string, i: nat, j: nat)
    requires i <= j <= |s|
    ensures (d + s)[|d| + i..|d| + j] == s[i..j]
  {
  }

  lemma TurnOnce(s: string, f: string -> string, n: nat)
    requires Next(s).Some?
    ensures After(s, f, n + 1) == After(Rewrite(s, f), f, n)
  {
  }

  lemma TurnLeft(s: string, f: string -> string, n: nat)
    requires Next(s).Some? && Finishes(s, f, n)
    ensures n > 0 && After(Rewrite(s, f), f, n - 1) == After(s, f, n)
    ensures Finishes(Rewrite(s, f), f, n - 1)
  {
  }

  lemma RewriteIs(s: string, f: string -> string)
    requires Next(s).Some?
    ensures Rewrite(s, f) == s[..Next(s).value.0] + f(s[Next(s).value.0 + 2..Next(s).value.1]) + s[Next(s).value.1 + 2..]
  {
  }

  lemma Around(d: string, p: string, v: string, rest: string)
    ensures (d + p + v) + rest == d + (p + v + rest)
  {
  }

  /** With clean values the loop does what one pass does, in as many turns as there
      are placeholders. */
  lemma {:induction false} LoopIsPass(d: string, s: string, f: string -> string)
    requires Clean(d) && AllClean(s, f)
    ensures After(d + s, f, Turns(s)) == d + Pass(s, f)
    ensures Next(d + Pass(s, f)).None?
    decreases |s|
  {
    hide Next, Clean, Rewrite, After;
    NextAfterClean(d, s);
    if Next(s).Some? {
      var i, e := Next(s).value.0, Next(s).value.1;
      var v, rest := f(s[i + 2..e]), s[e + 2..];
      CleanPrefix(d, s, v);
      OneTurn(d, s, f, Turns(rest));
      LoopIsPass(d + s[..i] + v, rest, f);
      Around(d, s[..i], v, Pass(rest, f));
    } else {
      NoTurn(d + s, f);
    }
  }

  lemma NoTurn(s: string, f: string -> string)
    ensures After(s, f, 0) == s
  {
  }

  /** A turn puts the value of the next placeholder behind what is written. */
  lemma OneTurn(d: string, s: string, f: string -> string, n: nat)
    requires Clean(d) && Next(s).Some?
    ensures var i, e := Next(s).value.0, Next(s).value.1;
            After(d + s, f, n + 1) == After(d + s[..i] + f(s[i + 2..e]) + s[e + 2..], f, n)
  {
    hide Next, Clean, Rewrite, After;
    var i, e := Next(s).value.0, Next(s).value.1;
    RewriteIs(s, f);
    RewriteAfterClean(d, s, f);
    TurnOnce(d + s, f, n);
    Around(d, s[..i], f(s[i + 2..e]), s[e + 2..]);
  }

  lemma ExpandsInOnePass(s: string, f: string -> string)
    requires AllClean(s, f)
    ensures Finishes(s, f, Turns(s)) && After(s, f, Turns(s)) == Pass(s, f)
  {
    LoopIsPass("", s, f);
    assert "" + s == s;
    assert "" + Pass(s, f) == Pass(s, f);
  }

  /** The text a placeholder can hold: what comes before the first closing braces. */
  predicate Extractable(e: string) {
    NoPair(e, '}') && (e == "" || e[|e| - 1] != '}')
  }

  lemma NextOfPlaceholder(e: string, rest: string)
    requires Extractable(e)
    ensures Next("{{" + e + "}}" + rest) == Some((0, |e| + 2))
  {
    var s := "{{" + e + "}}" + rest;
    assert PairAt(s, '{', 0);
    assert PairFrom(s, '{', 0) == Some(0);
    assert PairAt(s, '}', |e| + 2);
    forall k | k < |e| + 2 ensures !PairAt(s, '}', k) {
      assert !PairAt(e, '}', k - 2);
    }
  }

  lemma OnePlaceholder(e: string, rest: string, f: string -> string)
    requires Extractable(e) && Next(rest).None?
    ensures Pass("{{" + e + "}}" + rest, f) == f(e) + rest
  {
    var s := "{{" + e + "}}" + rest;
    NextOfPlaceholder(e, rest);
    assert s[..0] == "" && s[2..|e| + 2] == e && s[|e| + 4..] == rest;
  }

  /** Whatever the loop leaves has no placeholder, so a pass that leaves one is not what it computes. */
  lemma OpenIsNotAnEnd(s: string, f: string -> string, r: string, open: nat, close: nat)
    requires PairAt(r, '{', open) && PairAt(r, '}', close) && open < close
    ensures !EndsIn(s, f, r)
  {
  }

  lemma BreaksWith(e: string, rest: string, f: string -> string, open: nat, close: nat)
    requires Extractable(e) && Next(rest).None?
    requires PairAt(f(e) + rest, '{', open) && PairAt(f(e) + rest, '}', close) && open < close
    ensures exists s :: !EndsIn(s, f, Pass(s, f))
  {
    var s := "{{" + e + "}}" + rest;
    OnePlaceholder(e, rest, f);
    OpenIsNotAnEnd(s, f, f(e) + rest, open, close);
    assert !EndsIn(s, f, Pass(s, f));
  }

  lemma UncleanValueBreaksIt(e: string, f: string -> string)
    requires Extractable(e) && !Clean(f(e))
    ensures exists s :: !EndsIn(s, f, Pass(s, f))
  {
    var v := f(e);
    if PairFrom(v, '{', 0).Some? {
      assert PairAt(v, '{', PairFrom(v, '{', 0).value);
      BreaksWith(e, "}}", f, PairFrom(v, '{', 0).value, |v|);
    } else {
      BreaksWith(e, "{}}", f, |v| - 1, |v| + 1);
    }
  }

  /** The loop ends in the result of one left-to-right pass, on every template, exactly
      when every value it can substitute is clean. */
  lemma OnePassExactly(f: string -> string)
    ensures (forall s :: EndsIn(s, f, Pass(s, f))) <==> (forall e :: Extractable(e) ==> Clean(f(e)))
  {
    if forall e :: Extractable(e) ==> Clean(f(e)) {
      forall s ensures EndsIn(s, f, Pass(s, f)) {
        AllExtractable(s, f);
        ExpandsInOnePass(s, f);
      }
    } else {
      var e :| Extractable(e) && !Clean(f(e));
      UncleanValueBreaksIt(e, f);
    }
  }

  lemma {:induction false} AllExtractable(s: string, f: string -> string)
    requires forall e :: Extractable(e) ==> Clean(f(e))
    ensures AllClean(s, f)
    decreases |s|
  {
    if Next(s).Some? {
      var i, e := Next(s).value.0, Next(s).value.1;
      AllExtractable(s[e + 2..], f);
      InsideIsExtractable(s);
      hide Extractable, Clean, Next;
      assert Clean(f(s[i + 2..e]));
    }
  }

  lemma InsideIsExtractable(s: string)
    requires Next(s).Some?
    ensures Extractable(s[Next(s).value.0 + 2..Next(s).value.1])
  {
    var i, e := Next(s).value.0, Next(s).value.1;
    var x := s[i + 2..e];
    forall k ensures !PairAt(x, '}', k) {
      assert !PairAt(s, '}', k + i + 2) || k < 0 || k + i + 2 >= e;
    }
    assert !PairAt(s, '}', e - 1);
  }

  /** A value that mentions its own placeholder keeps the loop running for ever. */
  lemma {:induction false} SelfReferenceNeverFinishes(e: string, f: string -> string, n: nat)
    requires Extractable(e) && f(e) == "{{" + e + "}}"
    ensures After("{{" + e + "}}", f, n) == "{{" + e + "}}"
    ensures !Finishes("{{" + e + "}}", f, n)
  {
    var s := "{{" + e + "}}";
    assert s == s + "";
    NextOfPlaceholder(e, "");
    assert s[..0] == "" && s[2..|e| + 2] == e && s[|e| + 4..] == "";
    assert Rewrite(s, f) == s;
    if n > 0 { SelfReferenceNeverFinishes(e, f, n - 1); }
  }

  /** What a placeholder turns into: nothing for section marks, errors and nil. */
  function Replacement(raw: string, env: Env, display: Value -> string): string {
    var expr := Trim(raw);
    if HasPrefix(expr, "#") || HasPrefix(expr, "/") then ""
    else
      match EvalExpr(expr, env)
      case None => ""
      case Some(v) => if v.VNil? then "" else display(v)
  }

  function Replacements(env: Env, display: Value -> string): string -> string {
    raw => Replacement(raw, env, display)
  }

  /** A placeholder shows the value of its expression, and nothing for a section mark, an
      expression in error, or nil. */
  lemma ShowsItsValue(raw: string, env: Env, display: Value -> string)
    ensures var e := Trim(raw);
            var mark := e != "" && (e[0] == '#' || e[0] == '/');
            && (mark ==> Replacements(env, display)(raw) == "")
            && (!mark && EvalExpr(e, env).Some? && !EvalExpr(e, env).value.VNil? ==>
                  Replacements(env, display)(raw) == display(EvalExpr(e, env).value))
            && (!mark && (EvalExpr(e, env).None? || EvalExpr(e, env) == Some(VNil)) ==> Replacements(env, display)(raw) == "")
  {
    hide EvalExpr, Trim;
    var e := Trim(raw);
    if e != "" { assert e[..1] == [e[0]]; }
  }

  method Replace(raw: string, env: Env, display: Value -> string) returns (repl: string)
    ensures repl == Replacements(env, display)(raw)
  {
    var expr := Trim(raw);
    repl := "";
    if !HasPrefix(expr, "#") && !HasPrefix(expr, "/") {
      var v := Evaluate(expr, env);
      if v.Some? && !v.value.VNil? { repl := display(v.value); }
    }
  }

  /** The expander, which returns exactly when some number of turns leaves no placeholder. */
  method Expand(tmpl: string, f: string -> string, ghost turns: nat) returns (out: string)
    requires Finishes(tmpl, f, turns)
    ensures out == After(tmpl, f, turns)
    ensures Next(out).None?
  {
    if tmpl == "" { return ""; }
    out := tmpl;
    ghost var left, last := turns, After(tmpl, f, turns);
    while true
      invariant After(out, f, left) == last && Finishes(out, f, left)
      decreases left
    {
      var next := Next(out);
      if next.None? { break; }
      TurnLeft(out, f, left);
      var i, e := next.value.0, next.value.1;
      out := out[..i] + f(out[i + 2..e]) + out[e + 2..];
      left := left - 1;
    }
  }

  lemma LexOfName(n: string)
    requires n != "" && AllChars(n, IsIdentChar) && !IsDigit(n[0])
    ensures Lex(n) == [TIdent(n), TEOF]
  {
    FirstOfIdent(n, "");
    assert n + "" == n && n[|n|..] == "";
  }

  lemma NameEvaluates(ts: seq<Token>, n: string, env: Env)
    requires ts == [TIdent(n), TEOF]
    ensures EvOr(ts, 0, env) == Ok(ResolveRef(n, env), 1)
  {
    var v := ResolveRef(n, env);
    assert EvPrimary(ts, 0, env) == Ok(v, 1);
    assert EvAdd(ts, 0, env) == Ok(v, 1) by { assert EvAddRest(ts, 1, v, env) == Ok(v, 1); }
    assert EvAnd(ts, 0, env) == Ok(v, 1) by { assert EvCmp(ts, 0, env) == Ok(v, 1); }
  }

  lemma NameIsReplaced(n: string, env: Env, display: Value -> string)
    requires Trim(n) == n && n != "" && n[0] != '#' && n[0] != '/'
    requires Lex(n) == [TIdent(n), TEOF] && EvOr(Lex(n), 0, env) == Ok(ResolveRef(n, env), 1)
    requires !ResolveRef(n, env).VNil?
    ensures Replacements(env, display)(n) == display(ResolveRef(n, env))
  {
    hide Lex, EvOr, ResolveRef;
    assert EvalExpr(n, env) == Some(ResolveRef(n, env));
  }

  /** Such a value exists: a string variable that holds its own placeholder. */
  lemma SelfReferringVariable(env: Env, display: Value -> string, n: nat)
    requires "x" !in env.extra && "x" in env.vars && env.vars["x"] == VStr("{{x}}")
    requires display(VStr("{{x}}")) == "{{x}}"
    ensures !Finishes("{{x}}", Replacements(env, display), n)
  {
    hide EvalExpr, EvOr, Lex, Replacements, Finishes;
    LexOfName("x");
    assert Split("x"[1..], '.') == [""];
    assert Split("x", '.')[0] == "x";
    NameEvaluates(Lex("x"), "x", env);
    NameIsReplaced("x", env, display);
    SelfReferenceNeverFinishes("x", Replacements(env, display), n);
  }
}
