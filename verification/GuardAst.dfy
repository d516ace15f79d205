/** Guard expressions as syntax trees, and what they tell about the evaluator
    that never builds one. */
module GuardAst {
  import opened ExecSlot
  import opened Expr
  import opened Text
  import opened Tokenizer
  import opened GuardEval

  datatype Ast =
    | Num(s: string)
    | Str(s: string)
    | Ref(name: string)
    | Bin(op: string, l: Ast, r: Ast)
    | Call(fname: string, args: seq<Ast>)
    | JsonPath(args: seq<Ast>, path: string)

  datatype Tree = Node(a: Ast, pos: nat) | Bad

  datatype Trees = Nodes(as_: seq<Ast>, pos: nat) | BadArgs

  // --- The meaning of a tree --------------------------------------------------

  /** Both operands are always evaluated, and an error in either is an error. */
  function Binary(op: string, l: Value, r: Value, env: Env): Option<Value> {
    if op == "||" then Some(VBool(Truthy(l) || Truthy(r)))
    else if op == "&&" then Some(VBool(Truthy(l) && Truthy(r)))
    else if op == "+" || op == "-" then Arith(op, l, r, env)
    else Some(VBool(Compare(op, l, r, env)))
  }

  function Eval(a: Ast, env: Env): Option<Value> {
    match a
    case Num(s) => Some(Numeral(s, env))
    case Str(s) => Some(VStr(s))
    case Ref(name) => Some(ResolveRef(name, env))
    case Bin(op, l, r) =>
      (match Eval(l, env)
       case None => None
       case Some(x) => match Eval(r, env) case None => None case Some(y) => Binary(op, x, y, env))
    case Call(name, args) =>
      (match EvalAll(args, env) case None => None case Some(vs) => CallValue(name, vs, env))
    case JsonPath(args, path) =>
      match EvalAll(args, env)
      case None => None
      case Some(vs) => Some(match JsonOf(vs, env) case None => VNil case Some(m) => DigPath(m, path))
  }

  function EvalAll(args: seq<Ast>, env: Env): Option<seq<Value>> {
    if args == [] then Some([])
    else
      match Eval(args[0], env)
      case None => None
      case Some(v) => match EvalAll(args[1..], env) case None => None case Some(vs) => Some([v] + vs)
  }

  /** Whether json(args) finds a JSON object. */
  predicate Loads(args: seq<Ast>, env: Env) {
    match EvalAll(args, env) case None => false case Some(vs) => JsonOf(vs, env).Some?
  }

  // --- Parsing to a tree ------------------------------------------------------

  function PaOr(ts: seq<Token>, p: nat, env: Env): (r: Tree)
    requires Ended(ts) && p < |ts|
    ensures r.Node? ==> p < r.pos < |ts|
    decreases |ts| - p, 10
  {
    match PaAnd(ts, p, env) case Bad => Bad case Node(a, q) => PaOrRest(ts, q, a, env)
  }

  function PaOrRest(ts: seq<Token>, q: nat, left: Ast, env: Env): (r: Tree)
    requires Ended(ts) && q < |ts|
    ensures r.Node? ==> q <= r.pos < |ts|
    decreases |ts| - q, 9
  {
    if ts[q] == TOp("||") then
      match PaAnd(ts, q + 1, env) case Bad => Bad case Node(b, q2) => PaOrRest(ts, q2, Bin("||", left, b), env)
    else Node(left, q)
  }

  function PaAnd(ts: seq<Token>, p: nat, env: Env): (r: Tree)
    requires Ended(ts) && p < |ts|
    ensures r.Node? ==> p < r.pos < |ts|
    decreases |ts| - p, 8
  {
    match PaCmp(ts, p, env) case Bad => Bad case Node(a, q) => PaAndRest(ts, q, a, env)
  }

  function PaAndRest(ts: seq<Token>, q: nat, left: Ast, env: Env): (r: Tree)
    requires Ended(ts) && q < |ts|
    ensures r.Node? ==> q <= r.pos < |ts|
    decreases |ts| - q, 7
  {
    if ts[q] == TOp("&&") then
      match PaCmp(ts, q + 1, env) case Bad => Bad case Node(b, q2) => PaAndRest(ts, q2, Bin("&&", left, b), env)
    else Node(left, q)
  }

  function PaCmp(ts: seq<Token>, p: nat, env: Env): (r: Tree)
    requires Ended(ts) && p < |ts|
    ensures r.Node? ==> p < r.pos < |ts|
    decreases |ts| - p, 6
  {
    match PaAdd(ts, p, env)
    case Bad => Bad
    case Node(a, q) =>
      if IsCmp(ts[q]) then
        match PaAdd(ts, q + 1, env) case Bad => Bad case Node(b, q2) => Node(Bin(ts[q].s, a, b), q2)
      else Node(a, q)
  }

  function PaAdd(ts: seq<Token>, p: nat, env: Env): (r: Tree)
    requires Ended(ts) && p < |ts|
    ensures r.Node? ==> p < r.pos < |ts|
    decreases |ts| - p, 5
  {
    match PaPrimary(ts, p, env) case Bad => Bad case Node(a, q) => PaAddRest(ts, q, a, env)
  }

  function PaAddRest(ts: seq<Token>, q: nat, left: Ast, env: Env): (r: Tree)
    requires Ended(ts) && q < |ts|
    ensures r.Node? ==> q <= r.pos < |ts|
    decreases |ts| - q, 4
  {
    if IsAdd(ts[q]) then
      match PaPrimary(ts, q + 1, env) case Bad => Bad case Node(b, q2) => PaAddRest(ts, q2, Bin(ts[q].s, left, b), env)
    else Node(left, q)
  }

  function PaPrimary(ts: seq<Token>, p: nat, env: Env): (r: Tree)
    requires Ended(ts) && p < |ts|
    ensures r.Node? ==> p < r.pos < |ts|
    decreases |ts| - p, 3
  {
    match ts[p]
    case TNum(s) => Node(Num(s), p + 1)
    case TStr(s) => Node(Str(s), p + 1)
    case TLParen =>
      (match PaOr(ts, p + 1, env)
       case Bad => Bad
       case Node(a, q) => if ts[q] == TRParen then Node(a, q + 1) else Bad)
    case TIdent(s) =>
      if ts[p + 1] == TLParen then PaCall(ts, p + 1, s, env) else Node(Ref(s), p + 1)
    case _ => Bad
  }

  /** The only place where the shape of the tree depends on the environment: the
      path after json(...) belongs to the call when the artifact loads. */
  function PaCall(ts: seq<Token>, p: nat, name: string, env: Env): (r: Tree)
    requires Ended(ts) && p < |ts| && ts[p] == TLParen
    ensures r.Node? ==> p < r.pos < |ts|
    decreases |ts| - p, 2
  {
    match PaArgs(ts, p + 1, env)
    case BadArgs => Bad
    case Nodes(args, q) =>
      if ts[q] != TRParen then Bad
      else if name == "json" && IsDotted(ts[q + 1]) && Loads(args, env) then Node(JsonPath(args, ts[q + 1].s[1..]), q + 2)
      else Node(Call(name, args), q + 1)
  }

  function PaArgs(ts: seq<Token>, p: nat, env: Env): (r: Trees)
    requires Ended(ts) && p < |ts|
    ensures r.Nodes? ==> p <= r.pos < |ts|
    decreases |ts| - p, 11
  {
    if ts[p] == TRParen || ts[p] == TEOF then Nodes([], p)
    else
      match PaOr(ts, p, env)
      case Bad => BadArgs
      case Node(a, q) =>
        match PaArgs(ts, if ts[q] == TComma then q + 1 else q, env)
        case BadArgs => BadArgs
        case Nodes(as_, q2) => Nodes([a] + as_, q2)
  }

  // --- Evaluating while parsing is parsing, then evaluating --------------------

  function Run(t: Tree, env: Env): Res {
    match t
    case Bad => Err
    case Node(a, q) => match Eval(a, env) case None => Err case Some(v) => Ok(v, q)
  }

  function RunAll(t: Trees, env: Env): ArgRes {
    match t
    case BadArgs => ArgsErr
    case Nodes(as_, q) => match EvalAll(as_, env) case None => ArgsErr case Some(vs) => ArgsOk(vs, q)
  }

  /** The operator loops: an accumulated value stands for its tree, and once a
      subtree failed the whole parse fails. */
  lemma {:induction false} OrRestAgrees(ts: seq<Token>, q: nat, left: Ast, env: Env)
    requires Ended(ts) && q < |ts|
    ensures Run(PaOrRest(ts, q, left, env), env) ==
            match Eval(left, env) case None => Err case Some(v) => EvOrRest(ts, q, v, env)
    decreases |ts| - q, 9
  {
    if ts[q] == TOp("||") {
      AndAgrees(ts, q + 1, env);
      var t := PaAnd(ts, q + 1, env);
      if t.Node? {
        OrRestAgrees(ts, t.pos, Bin("||", left, t.a), env);
      }
    }
  }

  lemma {:induction false} OrAgrees(ts: seq<Token>, p: nat, env: Env)
    requires Ended(ts) && p < |ts|
    ensures EvOr(ts, p, env) == Run(PaOr(ts, p, env), env)
    decreases |ts| - p, 10
  {
    AndAgrees(ts, p, env);
    var t := PaAnd(ts, p, env);
    if t.Node? {
      OrRestAgrees(ts, t.pos, t.a, env);
    }
  }

  lemma {:induction false} AndRestAgrees(ts: seq<Token>, q: nat, left: Ast, env: Env)
    requires Ended(ts) && q < |ts|
    ensures Run(PaAndRest(ts, q, left, env), env) ==
            match Eval(left, env) case None => Err case Some(v) => EvAndRest(ts, q, v, env)
    decreases |ts| - q, 7
  {
    if ts[q] == TOp("&&") {
      CmpAgrees(ts, q + 1, env);
      var t := PaCmp(ts, q + 1, env);
      if t.Node? {
        AndRestAgrees(ts, t.pos, Bin("&&", left, t.a), env);
      }
    }
  }

  lemma {:induction false} AndAgrees(ts: seq<Token>, p: nat, env: Env)
    requires Ended(ts) && p < |ts|
    ensures EvAnd(ts, p, env) == Run(PaAnd(ts, p, env), env)
    decreases |ts| - p, 8
  {
    CmpAgrees(ts, p, env);
    var t := PaCmp(ts, p, env);
    if t.Node? {
      AndRestAgrees(ts, t.pos, t.a, env);
    }
  }

  lemma {:induction false} CmpAgrees(ts: seq<Token>, p: nat, env: Env)
    requires Ended(ts) && p < |ts|
    ensures EvCmp(ts, p, env) == Run(PaCmp(ts, p, env), env)
    decreases |ts| - p, 6
  {
    hide EvAdd, PaAdd;
    AddAgrees(ts, p, env);
    var t := PaAdd(ts, p, env);
    if t.Node? && IsCmp(ts[t.pos]) {
      AddAgrees(ts, t.pos + 1, env);
    }
  }

  lemma {:induction false} AddRestAgrees(ts: seq<Token>, q: nat, left: Ast, env: Env)
    requires Ended(ts) && q < |ts|
    ensures Run(PaAddRest(ts, q, left, env), env) ==
            match Eval(left, env) case None => Err case Some(v) => EvAddRest(ts, q, v, env)
    decreases |ts| - q, 4
  {
    if IsAdd(ts[q]) {
      PrimaryAgrees(ts, q + 1, env);
      var t := PaPrimary(ts, q + 1, env);
      if t.Node? {
        AddRestAgrees(ts, t.pos, Bin(ts[q].s, left, t.a), env);
      }
    }
  }

  lemma {:induction false} AddAgrees(ts: seq<Token>, p: nat, env: Env)
    requires Ended(ts) && p < |ts|
    ensures EvAdd(ts, p, env) == Run(PaAdd(ts, p, env), env)
    decreases |ts| - p, 5
  {
    PrimaryAgrees(ts, p, env);
    var t := PaPrimary(ts, p, env);
    if t.Node? {
      AddRestAgrees(ts, t.pos, t.a, env);
    }
  }

  lemma {:induction false} PrimaryAgrees(ts: seq<Token>, p: nat, env: Env)
    requires Ended(ts) && p < |ts|
    ensures EvPrimary(ts, p, env) == Run(PaPrimary(ts, p, env), env)
    decreases |ts| - p, 3
  {
    match ts[p] {
      case TLParen => OrAgrees(ts, p + 1, env);
      case TIdent(s) =>
        if ts[p + 1] == TLParen {
          CallAgrees(ts, p + 1, s, env);
        }
      case _ =>
    }
  }

  lemma {:induction false} CallAgrees(ts: seq<Token>, p: nat, name: string, env: Env)
    requires Ended(ts) && p < |ts| && ts[p] == TLParen
    ensures EvCall(ts, p, name, env) == Run(PaCall(ts, p, name, env), env)
    decreases |ts| - p, 2
  {
    hide EvArgs, PaArgs;
    ArgsAgree(ts, p + 1, env);
  }

  lemma {:induction false} ArgsAgree(ts: seq<Token>, p: nat, env: Env)
    requires Ended(ts) && p < |ts|
    ensures EvArgs(ts, p, env) == RunAll(PaArgs(ts, p, env), env)
    decreases |ts| - p, 11
  {
    if ts[p] != TRParen && ts[p] != TEOF {
      OrAgrees(ts, p, env);
      var t := PaOr(ts, p, env);
      if t.Node? {
        var next := if ts[t.pos] == TComma then t.pos + 1 else t.pos;
        ArgsAgree(ts, next, env);
        var rest := PaArgs(ts, next, env);
        if rest.Nodes? {
          assert ([t.a] + rest.as_)[1..] == rest.as_;
        }
      }
    }
  }

  /** The tree of a token sequence that is one whole expression. */
  function ParseTokens(ts: seq<Token>, env: Env): Option<Ast>
    requires Ended(ts)
  {
    match PaOr(ts, 0, env)
    case Bad => None
    case Node(a, q) => if ts[q] == TEOF then Some(a) else None
  }

  /** Evaluating while parsing equals parsing, then evaluating: on every input
      and in every environment. */
  lemma FusedIsParseThenEval(ts: seq<Token>, env: Env)
    requires Ended(ts)
    ensures EvalTokens(ts, env) ==
            if ParseTokens(ts, env).Some? then Eval(ParseTokens(ts, env).value, env) else None
  {
    OrAgrees(ts, 0, env);
  }
}
