/** What the operators, names and calls of a guard mean, said of the guard's text. */
module GuardLaws {
  import opened ExecSlot
  import opened Expr
  import opened GuardAst
  import opened GuardEval
  import opened GuardPrint
  import opened Text
  import opened Tokenizer

  // --- Comparisons ------------------------------------------------------------

  /** The guard that compares or adds two others, as text. */
  function Guard(op: string, l: Ast, r: Ast): string {
    Render(Bin(op, l, r))
  }

  predicate Says(op: string, l: Ast, r: Ast, env: Env) {
    EvalExpr(Guard(op, l, r), env) == Some(VBool(true))
  }

  predicate Denies(op: string, l: Ast, r: Ast, env: Env) {
    EvalExpr(Guard(op, l, r), env) == Some(VBool(false))
  }

  /** A guard that can be written, and has a value. */
  predicate Valued(a: Ast, env: Env) {
    Printable(a, env) && Eval(a, env).Some?
  }

  /** ... and that value is the number `x`. */
  predicate Counts(a: Ast, env: Env, x: real) {
    Valued(a, env) && ToFloat(Eval(a, env).value, env) == Some(x)
  }

  predicate IsNumber(a: Ast, env: Env) {
    Valued(a, env) && ToFloat(Eval(a, env).value, env).Some?
  }

  lemma TextMeansTree(op: string, l: Ast, r: Ast, env: Env)
    requires Valued(l, env) && Valued(r, env) && (op == "||" || op == "&&" || IsCmp(TOp(op)) || IsAdd(TOp(op)))
    ensures EvalExpr(Guard(op, l, r), env) == Binary(op, Eval(l, env).value, Eval(r, env).value, env)
  {
    RoundTrip(Bin(op, l, r), env);
  }

  lemma AllComparisons(l: Ast, r: Ast, env: Env)
    requires Valued(l, env) && Valued(r, env)
    ensures forall op :: op in {"==", "!=", "<", ">", "<=", ">="} ==>
              EvalExpr(Guard(op, l, r), env) == Binary(op, Eval(l, env).value, Eval(r, env).value, env)
  {
    hide EvalExpr, Guard, Printable, Eval;
    forall op | op in {"==", "!=", "<", ">", "<=", ">="}
      ensures EvalExpr(Guard(op, l, r), env) == Binary(op, Eval(l, env).value, Eval(r, env).value, env)
    {
      TextMeansTree(op, l, r, env);
    }
  }

  /** The order of the numbers. */
  predicate Relates(op: string, x: real, y: real) {
    match op
    case "==" => x == y
    case "!=" => x != y
    case "<" => y - x > 0.0
    case ">" => x - y > 0.0
    case "<=" => !(x - y > 0.0)
    case ">=" => !(y - x > 0.0)
    case _ => false
  }

  lemma OnNumbers(op: string, l: Ast, r: Ast, env: Env, x: real, y: real)
    requires Counts(l, env, x) && Counts(r, env, y) && op in {"==", "!=", "<", ">", "<=", ">="}
    ensures Says(op, l, r, env) <==> Relates(op, x, y)
  {
    TextMeansTree(op, l, r, env);
    hide EvalExpr, Guard, Printable, Eval;
  }

  /** Of two numbers exactly one of <, == and > holds; the other three follow from these, and
      exchanging the sides exchanges < and >. */
  lemma OrderIsTotal(l: Ast, r: Ast, env: Env, x: real, y: real)
    requires Counts(l, env, x) && Counts(r, env, y)
    ensures Says("<", l, r, env) || Says("==", l, r, env) || Says(">", l, r, env)
    ensures !(Says("<", l, r, env) && Says("==", l, r, env)) && !(Says(">", l, r, env) && Says("==", l, r, env))
    ensures !(Says("<", l, r, env) && Says(">", l, r, env))
    ensures Says("<=", l, r, env) <==> Says("<", l, r, env) || Says("==", l, r, env)
    ensures Says(">=", l, r, env) <==> Says(">", l, r, env) || Says("==", l, r, env)
    ensures Says("<", l, r, env) <==> Says(">", r, l, env)
    ensures Says("==", l, r, env) <==> x == y
  {
    OnNumbers("<", l, r, env, x, y);
    OnNumbers("==", l, r, env, x, y);
    OnNumbers(">", l, r, env, x, y);
    OnNumbers("<=", l, r, env, x, y);
    OnNumbers(">=", l, r, env, x, y);
    OnNumbers(">", r, l, env, y, x);
    hide Says, Counts;
  }

  /** A comparison always has an answer, and != is the opposite of ==, numbers or not. */
  lemma NotEqualIsTheOpposite(l: Ast, r: Ast, env: Env)
    requires Valued(l, env) && Valued(r, env)
    ensures Says("==", l, r, env) <==> Denies("!=", l, r, env)
    ensures Denies("==", l, r, env) <==> Says("!=", l, r, env)
    ensures forall op :: op in {"==", "!=", "<", ">", "<=", ">="} ==> Says(op, l, r, env) || Denies(op, l, r, env)
  {
    hide EvalExpr, Guard, Printable, Eval;
    AllComparisons(l, r, env);
  }

  /** Where a side is no number, == compares what is displayed and nothing is less or more. */
  lemma WordsAreNotOrdered(l: Ast, r: Ast, env: Env)
    requires Valued(l, env) && Valued(r, env)
    requires !IsNumber(l, env) || !IsNumber(r, env)
    ensures Says("==", l, r, env) <==> env.show(Eval(l, env).value) == env.show(Eval(r, env).value)
    ensures !Says("<", l, r, env) && !Says(">", l, r, env) && !Says("<=", l, r, env) && !Says(">=", l, r, env)
  {
    hide EvalExpr, Guard, Printable, Eval;
    AllComparisons(l, r, env);
  }

  // --- Sums ------------------------------------------------------------------------

  lemma Adds(l: Ast, r: Ast, env: Env, x: real, y: real)
    requires Counts(l, env, x) && Counts(r, env, y)
    ensures Counts(Bin("+", l, r), env, x + y) && Counts(Bin("-", l, r), env, x - y)
  {
  }

  /** A number is less than its sum with another exactly when the other is positive. */
  lemma LessThanItsSum(l: Ast, d: Ast, env: Env, x: real, z: real)
    requires Counts(l, env, x) && Counts(d, env, z)
    ensures Says("<", l, Bin("+", l, d), env) <==> z > 0.0
    ensures Says("<", Bin("-", l, d), l, env) <==> z > 0.0
  {
    Adds(l, d, env, x, z);
    hide Says, Counts;
    OnNumbers("<", l, Bin("+", l, d), env, x, x + z);
    OnNumbers("<", Bin("-", l, d), l, env, x - z, x);
  }

  /** Adding takes back what subtracting took, ... */
  lemma AddingBack(l: Ast, r: Ast, env: Env, x: real, y: real)
    requires Counts(l, env, x) && Counts(r, env, y)
    ensures Says("==", Bin("+", Bin("-", l, r), r), l, env)
  {
    Adds(l, r, env, x, y);
    Adds(Bin("-", l, r), r, env, x - y, y);
    hide Says, Counts;
    OnNumbers("==", Bin("+", Bin("-", l, r), r), l, env, x - y + y, x);
  }

  /** ... and subtracting what adding gave, ... */
  lemma TakingAway(l: Ast, r: Ast, env: Env, x: real, y: real)
    requires Counts(l, env, x) && Counts(r, env, y)
    ensures Says("==", Bin("-", Bin("+", l, r), r), l, env)
  {
    Adds(l, r, env, x, y);
    Adds(Bin("+", l, r), r, env, x + y, y);
    hide Says, Counts;
    OnNumbers("==", Bin("-", Bin("+", l, r), r), l, env, x + y - y, x);
  }

  /** ... and the order of a sum does not matter. */
  lemma SumsCommute(l: Ast, r: Ast, env: Env, x: real, y: real)
    requires Counts(l, env, x) && Counts(r, env, y)
    ensures Says("==", Bin("+", l, r), Bin("+", r, l), env)
  {
    Adds(l, r, env, x, y);
    Adds(r, l, env, y, x);
    hide Says, Counts;
    OnNumbers("==", Bin("+", l, r), Bin("+", r, l), env, x + y, y + x);
  }

  /** A sum is an error exactly when a side is no number. */
  lemma SumsNeedNumbers(op: string, l: Ast, r: Ast, env: Env)
    requires Valued(l, env) && Valued(r, env) && (op == "+" || op == "-")
    ensures EvalExpr(Guard(op, l, r), env) == None <==> !IsNumber(l, env) || !IsNumber(r, env)
  {
    hide EvalExpr, Guard, Printable, Eval;
    TextMeansTree(op, l, r, env);
  }

  /** Integers, reals, booleans and numerals are one kind of number. */
  lemma OneKindOfNumber(i: int, s: string, env: Env)
    ensures ToFloat(VInt(i), env) == ToFloat(VInt64(i), env) == ToFloat(VNum(i as real), env) == Some(i as real)
    ensures ToFloat(VBool(true), env) == ToFloat(VInt(1), env) && ToFloat(VBool(false), env) == ToFloat(VInt(0), env)
    ensures ToFloat(VStr(s), env) == env.num(s)
    ensures ToFloat(VNil, env) == None
  {
  }

  // --- Truth --------------------------------------------------------------------

  /** Exactly these values fail a guard; an int64 zero does not. */
  lemma FailingValues(v: Value)
    ensures !Truthy(v) <==> v in {VNil, VBool(false), VNum(0.0), VInt(0), VStr(""), VStr("false")}
    ensures Truthy(VInt64(0))
  {
  }

  /** An empty guard and "default" pass, spaces aside; any other passes exactly when it has
      a value that does not fail. */
  lemma PassingGuards(w: string, env: Env)
    ensures Trim(w) in {"", "default"} ==> GuardPasses(w, env)
    ensures Trim(w) !in {"", "default"} ==>
              GuardPasses(w, env) ==
              (EvalExpr(Trim(w), env).Some?
               && EvalExpr(Trim(w), env).value !in {VNil, VBool(false), VNum(0.0), VInt(0), VStr(""), VStr("false")})
  {
    hide EvalExpr, Trim;
    if EvalExpr(Trim(w), env).Some? { FailingValues(EvalExpr(Trim(w), env).value); }
  }

  /** || holds where a side does and && where both do, and either is an error where a side
      is: nothing is cut short. */
  lemma Connectives(l: Ast, r: Ast, env: Env)
    requires Printable(l, env) && Printable(r, env)
    ensures Eval(l, env).Some? && Eval(r, env).Some? ==>
              && (Says("||", l, r, env) <==> Truthy(Eval(l, env).value) || Truthy(Eval(r, env).value))
              && (Says("&&", l, r, env) <==> Truthy(Eval(l, env).value) && Truthy(Eval(r, env).value))
              && (Says("||", l, r, env) || Denies("||", l, r, env)) && (Says("&&", l, r, env) || Denies("&&", l, r, env))
    ensures Eval(l, env).None? || Eval(r, env).None? ==>
              EvalExpr(Guard("||", l, r), env) == None && EvalExpr(Guard("&&", l, r), env) == None
  {
    RoundTrip(Bin("||", l, r), env);
    RoundTrip(Bin("&&", l, r), env);
    hide EvalExpr, Truthy;
  }

  lemma Flat(op: string, a: Ast, b: Ast, level: nat)
    requires Prec(a) >= LeftLevel(op) && Prec(b) >= OpPrec(op) + 1 && level <= OpPrec(op)
    ensures Print(Bin(op, a, b), level) == Raw(a) + [TOp(op)] + Raw(b) == Raw(Bin(op, a, b))
  {
  }

  /** What binds tighter needs no parentheses, and a chain of sums goes from the left. */
  lemma Precedence(a: Ast, b: Ast, c: Ast)
    requires Prec(a) == 4 && Prec(b) == 4 && Prec(c) == 4
    ensures Print(Bin("||", a, Bin("&&", b, c)), 0) == Raw(a) + [TOp("||")] + (Raw(b) + [TOp("&&")] + Raw(c))
    ensures Print(Bin("&&", a, Bin("<", b, c)), 0) == Raw(a) + [TOp("&&")] + (Raw(b) + [TOp("<")] + Raw(c))
    ensures Print(Bin("<", a, Bin("+", b, c)), 0) == Raw(a) + [TOp("<")] + (Raw(b) + [TOp("+")] + Raw(c))
    ensures Print(Bin("-", Bin("-", a, b), c), 0) == (Raw(a) + [TOp("-")] + Raw(b)) + [TOp("-")] + Raw(c)
  {
    Flat("&&", b, c, 1);
    Flat("<", b, c, 2);
    Flat("+", b, c, 3);
    Flat("-", a, b, 3);
    hide Print, Raw;
    Flat("||", a, Bin("&&", b, c), 0);
    Flat("&&", a, Bin("<", b, c), 0);
    Flat("<", a, Bin("+", b, c), 0);
    Flat("-", Bin("-", a, b), c, 0);
  }

  // --- Names -------------------------------------------------------------------

  lemma {:induction false} SplitPlain(s: string)
    requires '.' !in s
    ensures Split(s, '.') == [s]
  {
    if s != "" {
      SplitPlain(s[1..]);
      assert [s[0]] + s[1..] == s;
    }
  }

  lemma {:induction false} SplitDotted(a: string, b: string)
    requires '.' !in a
    ensures Split(a + "." + b, '.') == [a] + Split(b, '.')
  {
    var s := a + "." + b;
    if a == "" {
      assert s[1..] == b;
    } else {
      SplitDotted(a[1..], b);
      assert s[1..] == a[1..] + "." + b;
      assert [a[0]] + a[1..] == a;
    }
  }

  lemma Literals(env: Env)
    ensures ResolveRef("true", env) == VBool(true) && ResolveRef("false", env) == VBool(false)
  {
    SplitPlain("true");
    SplitPlain("false");
  }

  /** Any other plain name is the routing value of that name, else the variable, else nil. */
  lemma PlainName(n: string, env: Env)
    requires '.' !in n && n !in {"true", "false", "vars", "nodes"}
    ensures n in env.extra ==> ResolveRef(n, env) == env.extra[n]
    ensures n !in env.extra && n in env.vars ==> ResolveRef(n, env) == env.vars[n]
    ensures n !in env.extra && n !in env.vars ==> ResolveRef(n, env) == VNil
  {
    SplitPlain(n);
  }

  /** vars.k is the variable, whatever the routing values. */
  lemma VariableName(k: string, env: Env)
    requires '.' !in k
    ensures k in env.vars ==> ResolveRef("vars." + k, env) == env.vars[k]
    ensures k !in env.vars ==> ResolveRef("vars." + k, env) == VNil
    ensures ResolveRef("vars", env) == VNil
  {
    SplitDotted("vars", k);
    SplitPlain(k);
    SplitPlain("vars");
    assert "vars" + "." + k == "vars." + k;
  }

  /** nodes.n.outputs.f is an output of a node, and one more name goes one object deeper. */
  lemma OutputName(n: string, f: string, g: string, env: Env)
    requires '.' !in n && '.' !in f && '.' !in g && n in env.nodes && f in env.nodes[n]
    ensures ResolveRef("nodes." + n + ".outputs." + f, env) == env.nodes[n][f]
    ensures env.nodes[n][f].VMap? && g in env.nodes[n][f].m ==>
              ResolveRef("nodes." + n + ".outputs." + f + "." + g, env) == env.nodes[n][f].m[g]
    ensures !env.nodes[n][f].VMap? ==> ResolveRef("nodes." + n + ".outputs." + f + "." + g, env) == VNil
  {
    OutputParts(n, f);
    OutputParts(n, f + "." + g);
    SplitPlain(f);
    SplitPlain(g);
    SplitDotted(f, g);
    assert "nodes." + n + ".outputs." + (f + "." + g) == "nodes." + n + ".outputs." + f + "." + g;
    assert Join([f], ".") == f && Join([f, g], ".") == f + "." + g;
    hide Split;
    DigOne(env.nodes[n], f);
    DigTwo(env.nodes[n], f, g);
  }

  lemma OutputText(n: string, rest: string)
    ensures "nodes" + "." + (n + "." + ("outputs" + "." + rest)) == "nodes." + n + ".outputs." + rest
  {
    assert "nodes" + "." == "nodes.";
    assert ".outputs." == "." + "outputs" + ".";
  }

  lemma OutputParts(n: string, rest: string)
    requires '.' !in n
    ensures Split("nodes." + n + ".outputs." + rest, '.') == ["nodes", n, "outputs"] + Split(rest, '.')
  {
    SplitDotted("outputs", rest);
    SplitDotted(n, "outputs" + "." + rest);
    SplitDotted("nodes", n + "." + ("outputs" + "." + rest));
    OutputText(n, rest);
    hide Split;
    assert ["nodes"] + ([n] + (["outputs"] + Split(rest, '.'))) == ["nodes", n, "outputs"] + Split(rest, '.');
  }

  lemma DigOne(m: map<string, Value>, f: string)
    requires '.' !in f && f in m
    ensures DigPath(m, f) == m[f]
  {
    SplitPlain(f);
    assert [f][1..] == [] && DigSegments(m[f], []) == m[f];
  }

  lemma DigTwo(m: map<string, Value>, f: string, g: string)
    requires '.' !in f && '.' !in g && f in m
    ensures DigPath(m, f + "." + g) == if m[f].VMap? && g in m[f].m then m[f].m[g] else VNil
  {
    SplitDotted(f, g);
    SplitPlain(g);
    hide Split;
    assert ([f] + [g])[1..] == [g] && [g][1..] == [];
    assert DigSegments(VMap(m), [f, g]) == DigSegments(m[f], [g]);
  }

  // --- Calls ---------------------------------------------------------------------

  /** exists, artifact and json on a file name; other names are errors. */
  lemma CallsOnAFile(f: string, find: string -> Option<string>, env: Env, name: string)
    requires env.artifact == Some(find)
    ensures CallValue("exists", [VStr(f)], env) == Some(VBool(find(f).Some?))
    ensures find(f).Some? ==> CallValue("artifact", [VStr(f)], env) == Some(VStr(find(f).value))
    ensures find(f).None? ==> CallValue("artifact", [VStr(f)], env) == Some(VStr(""))
    ensures find(f).Some? && env.json(find(f).value).Some? ==>
              CallValue("json", [VStr(f)], env) == Some(VMap(env.json(find(f).value).value))
    ensures find(f).None? || env.json(find(f).value).None? ==> CallValue("json", [VStr(f)], env) == Some(VNil)
    ensures name !in {"exists", "artifact", "json"} ==> CallValue(name, [VStr(f)], env) == None
  {
  }

  /** A numeral is the number it parses as, and zero where it does not parse; quoted text
      is itself. */
  lemma Leaves(s: string, env: Env)
    ensures env.num(s).Some? ==> Eval(Num(s), env) == Some(VNum(env.num(s).value))
    ensures env.num(s).None? ==> Eval(Num(s), env) == Some(VNum(0.0))
    ensures Eval(Str(s), env) == Some(VStr(s))
  {
  }

  /** A path after json(...) picks a field of the object, and a second name one of its. */
  lemma JsonFields(f: string, k: string, l: string, m: map<string, Value>, env: Env)
    requires JsonOf([VStr(f)], env) == Some(m) && '.' !in k && '.' !in l && k in m
    ensures Eval(JsonPath([Str(f)], k), env) == Some(m[k])
    ensures m[k].VMap? && l in m[k].m ==> Eval(JsonPath([Str(f)], k + "." + l), env) == Some(m[k].m[l])
  {
    DigOne(m, k);
    DigTwo(m, k, l);
    hide DigPath;
    assert [Str(f)][1..] == [] && EvalAll([], env) == Some([]);
    assert Eval(Str(f), env) == Some(VStr(f));
    assert EvalAll([Str(f)], env) == Some([VStr(f)] + []);
    assert [VStr(f)] + [] == [VStr(f)];
  }
}
