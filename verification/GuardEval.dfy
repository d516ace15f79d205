/** The guard evaluator: a recursive-descent parser that computes values as it
    consumes tokens, with no short circuit. */
module GuardEval {
  import opened ExecSlot
  import opened Expr
  import opened Text
  import opened Tokenizer

  /** A value and the position after it, or the error that ends evaluation. */
  datatype Res = Ok(v: Value, pos: nat) | Err

  datatype ArgRes = ArgsOk(vs: seq<Value>, pos: nat) | ArgsErr

  /** What tokenize produces: an end token, last. */
  predicate Ended(ts: seq<Token>) {
    ts != [] && ts[|ts| - 1] == TEOF
  }

  predicate IsCmp(t: Token) {
    t.TOp? && (t.s == "==" || t.s == "!=" || t.s == "<" || t.s == ">" || t.s == "<=" || t.s == ">=")
  }

  predicate IsAdd(t: Token) {
    t == TOp("+") || t == TOp("-")
  }

  /** An identifier that starts with a dot, as after json("f"). */
  predicate IsDotted(t: Token) {
    t.TIdent? && HasPrefix(t.s, ".")
  }

  // Every function starts at a position before the end of the tokens and, when it
  // succeeds, stops before the end: the parser never reads past the end token.

  function EvOr(ts: seq<Token>, p: nat, env: Env): (r: Res)
    requires Ended(ts) && p < |ts|
    ensures r.Ok? ==> p < r.pos < |ts|
    decreases |ts| - p, 10
  {
    match EvAnd(ts, p, env)
    case Err => Err
    case Ok(v, q) => EvOrRest(ts, q, v, env)
  }

  function EvOrRest(ts: seq<Token>, q: nat, left: Value, env: Env): (r: Res)
    requires Ended(ts) && q < |ts|
    ensures r.Ok? ==> q <= r.pos < |ts|
    decreases |ts| - q, 9
  {
    if ts[q] == TOp("||") then
      match EvAnd(ts, q + 1, env)
      case Err => Err
      case Ok(right, q2) => EvOrRest(ts, q2, VBool(Truthy(left) || Truthy(right)), env)
    else Ok(left, q)
  }

  function EvAnd(ts: seq<Token>, p: nat, env: Env): (r: Res)
    requires Ended(ts) && p < |ts|
    ensures r.Ok? ==> p < r.pos < |ts|
    decreases |ts| - p, 8
  {
    match EvCmp(ts, p, env)
    case Err => Err
    case Ok(v, q) => EvAndRest(ts, q, v, env)
  }

  function EvAndRest(ts: seq<Token>, q: nat, left: Value, env: Env): (r: Res)
    requires Ended(ts) && q < |ts|
    ensures r.Ok? ==> q <= r.pos < |ts|
    decreases |ts| - q, 7
  {
    if ts[q] == TOp("&&") then
      match EvCmp(ts, q + 1, env)
      case Err => Err
      case Ok(right, q2) => EvAndRest(ts, q2, VBool(Truthy(left) && Truthy(right)), env)
    else Ok(left, q)
  }

  function EvCmp(ts: seq<Token>, p: nat, env: Env): (r: Res)
    requires Ended(ts) && p < |ts|
    ensures r.Ok? ==> p < r.pos < |ts|
    decreases |ts| - p, 6
  {
    match EvAdd(ts, p, env)
    case Err => Err
    case Ok(left, q) =>
      if IsCmp(ts[q]) then
        match EvAdd(ts, q + 1, env)
        case Err => Err
        case Ok(right, q2) => Ok(VBool(Compare(ts[q].s, left, right, env)), q2)
      else Ok(left, q)
  }

  function EvAdd(ts: seq<Token>, p: nat, env: Env): (r: Res)
    requires Ended(ts) && p < |ts|
    ensures r.Ok? ==> p < r.pos < |ts|
    decreases |ts| - p, 5
  {
    match EvPrimary(ts, p, env)
    case Err => Err
    case Ok(v, q) => EvAddRest(ts, q, v, env)
  }

  function EvAddRest(ts: seq<Token>, q: nat, left: Value, env: Env): (r: Res)
    requires Ended(ts) && q < |ts|
    ensures r.Ok? ==> q <= r.pos < |ts|
    decreases |ts| - q, 4
  {
    if IsAdd(ts[q]) then
      match EvPrimary(ts, q + 1, env)
      case Err => Err
      case Ok(right, q2) =>
        match Arith(ts[q].s, left, right, env)
        case None => Err
        case Some(v) => EvAddRest(ts, q2, v, env)
    else Ok(left, q)
  }

  function EvPrimary(ts: seq<Token>, p: nat, env: Env): (r: Res)
    requires Ended(ts) && p < |ts|
    ensures r.Ok? ==> p < r.pos < |ts|
    decreases |ts| - p, 3
  {
    match ts[p]
    case TNum(s) => Ok(Numeral(s, env), p + 1)
    case TStr(s) => Ok(VStr(s), p + 1)
    case TLParen =>
      (match EvOr(ts, p + 1, env)
       case Err => Err
       case Ok(v, q) => if ts[q] == TRParen then Ok(v, q + 1) else Err)
    case TIdent(s) =>
      if ts[p + 1] == TLParen then EvCall(ts, p + 1, s, env) else Ok(ResolveRef(s, env), p + 1)
    case _ => Err
  }

  /** The call whose opening parenthesis is at `p`.  A path after json(...) is
      consumed only when the artifact loads. */
  function EvCall(ts: seq<Token>, p: nat, name: string, env: Env): (r: Res)
    requires Ended(ts) && p < |ts| && ts[p] == TLParen
    ensures r.Ok? ==> p < r.pos < |ts|
    decreases |ts| - p, 2
  {
    match EvArgs(ts, p + 1, env)
    case ArgsErr => Err
    case ArgsOk(vs, q) =>
      if ts[q] != TRParen then Err
      else if name == "json" && JsonOf(vs, env).Some? && IsDotted(ts[q + 1]) then
        Ok(DigPath(JsonOf(vs, env).value, ts[q + 1].s[1..]), q + 2)
      else
        match CallValue(name, vs, env)
        case None => Err
        case Some(v) => Ok(v, q + 1)
  }

  /** Arguments up to the closing parenthesis; the commas are optional. */
  function EvArgs(ts: seq<Token>, p: nat, env: Env): (r: ArgRes)
    requires Ended(ts) && p < |ts|
    ensures r.ArgsOk? ==> p <= r.pos < |ts|
    decreases |ts| - p, 11
  {
    if ts[p] == TRParen || ts[p] == TEOF then ArgsOk([], p)
    else
      match EvOr(ts, p, env)
      case Err => ArgsErr
      case Ok(v, q) =>
        match EvArgs(ts, if ts[q] == TComma then q + 1 else q, env)
        case ArgsErr => ArgsErr
        case ArgsOk(vs, q2) => ArgsOk([v] + vs, q2)
  }

  /** evalExpr on tokens: the whole input must be one expression. */
  function EvalTokens(ts: seq<Token>, env: Env): Option<Value>
    requires Ended(ts)
  {
    match EvOr(ts, 0, env)
    case Err => None
    case Ok(v, q) => if ts[q] == TEOF then Some(v) else None
  }

  function EvalExpr(s: string, env: Env): Option<Value> {
    LexEndsWithEOF(s);
    EvalTokens(Lex(s), env)
  }

  /** Empty and "default" pass; anything that fails to evaluate does not. */
  predicate GuardPasses(w: string, env: Env) {
    var t := Trim(w);
    t == "" || t == "default" || (match EvalExpr(t, env) case None => false case Some(v) => Truthy(v))
  }

  // --- The parser object ----------------------------------------------------

  class Parser {
    const toks: seq<Token>
    const env: Env
    var pos: nat

    constructor (toks: seq<Token>, env: Env)
      requires Ended(toks)
      ensures this.toks == toks && this.env == env && pos == 0 && Valid()
    {
      this.toks, this.env, this.pos := toks, env, 0;
    }

    ghost predicate Valid()
      reads this
    {
      Ended(toks) && pos < |toks|
    }

    /** What a parse method owes for the specification result `r`. */
    ghost predicate Did(r: Res, v: Option<Value>)
      reads this
    {
      Valid() && (match r case Err => v == None case Ok(x, q) => v == Some(x) && pos == q)
    }

    method ParseOr() returns (v: Option<Value>)
      requires Valid()
      modifies this
      ensures Did(EvOr(toks, old(pos), env), v)
      decreases |toks| - pos, 10
    {
      v := ParseAnd();
      if v.None? { return; }
      var left := v.value;
      while toks[pos] == TOp("||")
        invariant Valid() && old(pos) < pos
        invariant EvOr(toks, old(pos), env) == EvOrRest(toks, pos, left, env)
        decreases |toks| - pos
      {
        pos := pos + 1;
        var right := ParseAnd();
        if right.None? { return None; }
        left := VBool(Truthy(left) || Truthy(right.value));
      }
      return Some(left);
    }

    method ParseAnd() returns (v: Option<Value>)
      requires Valid()
      modifies this
      ensures Did(EvAnd(toks, old(pos), env), v)
      decreases |toks| - pos, 8
    {
      v := ParseCmp();
      if v.None? { return; }
      var left := v.value;
      while toks[pos] == TOp("&&")
        invariant Valid() && old(pos) < pos
        invariant EvAnd(toks, old(pos), env) == EvAndRest(toks, pos, left, env)
        decreases |toks| - pos
      {
        pos := pos + 1;
        var right := ParseCmp();
        if right.None? { return None; }
        left := VBool(Truthy(left) && Truthy(right.value));
      }
      return Some(left);
    }

    method ParseCmp() returns (v: Option<Value>)
      requires Valid()
      modifies this
      ensures Did(EvCmp(toks, old(pos), env), v)
      decreases |toks| - pos, 6
    {
      v := ParseAdd();
      if v.Some? && IsCmp(toks[pos]) {
        var op := toks[pos].s;
        pos := pos + 1;
        var right := ParseAdd();
        if right.None? { return None; }
        return Some(VBool(Compare(op, v.value, right.value, env)));
      }
    }

    method ParseAdd() returns (v: Option<Value>)
      requires Valid()
      modifies this
      ensures Did(EvAdd(toks, old(pos), env), v)
      decreases |toks| - pos, 5
    {
      v := ParsePrimary();
      if v.None? { return; }
      var left := v.value;
      while IsAdd(toks[pos])
        invariant Valid() && old(pos) < pos
        invariant EvAdd(toks, old(pos), env) == EvAddRest(toks, pos, left, env)
        decreases |toks| - pos
      {
        var op := toks[pos].s;
        pos := pos + 1;
        var right := ParsePrimary();
        if right.None? { return None; }
        var sum := Arith(op, left, right.value, env);
        if sum.None? { return None; }
        left := sum.value;
      }
      return Some(left);
    }

    method ParsePrimary() returns (v: Option<Value>)
      requires Valid()
      modifies this
      ensures Did(EvPrimary(toks, old(pos), env), v)
      decreases |toks| - pos, 3
    {
      var t := toks[pos];
      match t {
        case TNum(s) =>
          pos := pos + 1;
          v := Some(Numeral(s, env));
        case TStr(s) =>
          pos := pos + 1;
          v := Some(VStr(s));
        case TLParen =>
          pos := pos + 1;
          v := ParseOr();
          if v.None? { return; }
          if toks[pos] != TRParen { return None; }
          pos := pos + 1;
        case TIdent(s) =>
          pos := pos + 1;
          if toks[pos] == TLParen {
            v := ParseCall(s);
          } else {
            v := Some(ResolveRef(s, env));
          }
        case _ => v := None;
      }
    }

    /** The argument loop of parseCall. */
    method ParseArgs() returns (args: seq<Value>, ok: bool)
      requires Valid()
      modifies this
      ensures Valid()
      ensures match EvArgs(toks, old(pos), env)
              case ArgsErr => !ok
              case ArgsOk(vs, q) => ok && args == vs && pos == q
      decreases |toks| - pos, 11
    {
      args := [];
      while toks[pos] != TRParen && toks[pos] != TEOF
        invariant Valid() && old(pos) <= pos
        invariant EvArgs(toks, old(pos), env) == Prepended(args, EvArgs(toks, pos, env))
        decreases |toks| - pos
      {
        var a := ParseOr();
        if a.None? { return args, false; }
        if toks[pos] == TComma {
          pos := pos + 1;
        }
        PrependedOne(args, a.value, EvArgs(toks, pos, env));
        args := args + [a.value];
      }
      assert args + [] == args;
      return args, true;
    }

    method ParseCall(name: string) returns (v: Option<Value>)
      requires Valid() && toks[pos] == TLParen
      modifies this
      ensures Did(EvCall(toks, old(pos), name, env), v)
      decreases |toks| - pos, 2
    {
      pos := pos + 1;
      var args, ok := ParseArgs();
      if !ok || toks[pos] != TRParen { return None; }
      pos := pos + 1;
      if name == "json" {
        var loaded := JsonOf(args, env);
        if loaded.None? { return Some(VNil); }
        if IsDotted(toks[pos]) {
          var path := toks[pos].s[1..];
          pos := pos + 1;
          return Some(DigPath(loaded.value, path));
        }
        return Some(VMap(loaded.value));
      }
      v := CallValue(name, args, env);
    }
  }

  lemma PrependedOne(vs: seq<Value>, v: Value, r: ArgRes)
    ensures Prepended(vs + [v], r) ==
            Prepended(vs, match r case ArgsErr => ArgsErr case ArgsOk(ws, q) => ArgsOk([v] + ws, q))
  {
  }

  ghost function Prepended(vs: seq<Value>, r: ArgRes): ArgRes {
    match r
    case ArgsErr => ArgsErr
    case ArgsOk(ws, q) => ArgsOk(vs + ws, q)
  }

  /** evalExpr. */
  method Evaluate(s: string, env: Env) returns (v: Option<Value>)
    ensures v == EvalExpr(s, env)
  {
    var toks := Tokenize(s);
    LexEndsWithEOF(s);
    var p := new Parser(toks, env);
    v := p.ParseOr();
    if v.Some? && p.toks[p.pos] != TEOF {
      v := None;
    }
  }
}
