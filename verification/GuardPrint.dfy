/** Printing guard trees with the fewest parentheses their precedences allow, and
    reading them back. */
module GuardPrint {
  import opened ExecSlot
  import opened Expr
  import opened Text
  import opened Tokenizer
  import opened GuardEval
  import opened GuardAst

  /** or < and < comparison < addition < everything else. */
  function Prec(a: Ast): nat {
    match a
    case Bin(op, _, _) => OpPrec(op)
    case _ => 4
  }

  function OpPrec(op: string): nat {
    if op == "||" then 0 else if op == "&&" then 1 else if op == "+" || op == "-" then 3 else 2
  }

  /** The level of the left operand: loops associate to the left, a comparison
      takes two sums. */
  function LeftLevel(op: string): nat {
    if OpPrec(op) == 2 then 3 else OpPrec(op)
  }

  function Print(a: Ast, level: nat): seq<Token>
    decreases a, 1
  {
    if Prec(a) >= level then Raw(a) else [TLParen] + Raw(a) + [TRParen]
  }

  function Raw(a: Ast): seq<Token>
    decreases a, 0
  {
    match a
    case Num(s) => [TNum(s)]
    case Str(s) => [TStr(s)]
    case Ref(name) => [TIdent(name)]
    case Bin(op, l, r) => Print(l, LeftLevel(op)) + [TOp(op)] + Print(r, OpPrec(op) + 1)
    case Call(name, args) => [TIdent(name), TLParen] + PrintArgs(args) + [TRParen]
    case JsonPath(args, path) => [TIdent("json"), TLParen] + PrintArgs(args) + [TRParen, TIdent("." + path)]
  }

  function PrintArgs(args: seq<Ast>): seq<Token> {
    if args == [] then []
    else if |args| == 1 then Print(args[0], 0)
    else Print(args[0], 0) + [TComma] + PrintArgs(args[1..])
  }

  /** Trees some text stands for in `env`: known operators, writable leaves, and
      paths only on artifacts that load. */
  predicate Printable(a: Ast, env: Env) {
    match a
    case Num(s) => Writable(TNum(s))
    case Str(s) => Writable(TStr(s))
    case Ref(name) => Writable(TIdent(name))
    case Bin(op, l, r) =>
      (op == "||" || op == "&&" || IsCmp(TOp(op)) || IsAdd(TOp(op))) && Printable(l, env) && Printable(r, env)
    case Call(name, args) => Writable(TIdent(name)) && forall i :: 0 <= i < |args| ==> Printable(args[i], env)
    case JsonPath(args, path) =>
      AllChars(path, IsIdentChar) && Loads(args, env) && forall i :: 0 <= i < |args| ==> Printable(args[i], env)
  }

  /** What can follow a printed operand. */
  predicate Follow(t: Token) {
    t.TOp? || t == TRParen || t == TComma || t == TEOF
  }

  /** What can follow an operand printed at `level` without extending it. */
  predicate Closes(t: Token, level: nat) {
    && Follow(t)
    && (level <= 2 ==> !IsAdd(t) && !IsCmp(t))
    && (level <= 0 ==> t != TOp("&&"))
  }

  /** `x` stands at position `p` of `ts`. */
  ghost predicate Stands(ts: seq<Token>, p: nat, x: seq<Token>) {
    p + |x| < |ts| && ts[p..p + |x|] == x
  }

  lemma StandsSplit(ts: seq<Token>, p: nat, x: seq<Token>, y: seq<Token>)
    requires Stands(ts, p, x + y)
    ensures Stands(ts, p, x) && Stands(ts, p + |x|, y)
  {
    var z := x + y;
    assert ts[p..p + |x|] == z[..|x|] by {
      assert ts[p..p + |z|][..|x|] == ts[p..p + |x|];
    }
    assert ts[p + |x|..p + |z|] == z[|x|..] by {
      assert ts[p..p + |z|][|x|..] == ts[p + |x|..p + |z|];
    }
    assert z[..|x|] == x && z[|x|..] == y;
  }

  /** The parser of each level reads the operand and is left where its loop goes
      on; a comparison does not loop. */
  ghost predicate Reads(ts: seq<Token>, p: nat, level: nat, a: Ast, q: nat, env: Env)
    requires Ended(ts) && p < |ts| && q < |ts|
  {
    if level == 0 then PaOr(ts, p, env) == PaOrRest(ts, q, a, env)
    else if level == 1 then PaAnd(ts, p, env) == PaAndRest(ts, q, a, env)
    else if level == 2 then PaCmp(ts, p, env) == Node(a, q)
    else if level == 3 then PaAdd(ts, p, env) == PaAddRest(ts, q, a, env)
    else PaPrimary(ts, p, env) == Node(a, q)
  }


  /** Nothing at `q` extends the operand at this level: its parser does no more
      than the next one down. */
  lemma Lift(ts: seq<Token>, p: nat, level: nat, a: Ast, q: nat, env: Env)
    requires Ended(ts) && p < |ts| && q < |ts| && level < 4
    requires Reads(ts, p, level + 1, a, q, env) && Closes(ts[q], level)
    ensures Reads(ts, p, level, a, q, env)
  {
  }

  lemma ReadsOr(ts: seq<Token>, p: nat, m: nat, q: nat, l: Ast, r: Ast, env: Env)
    requires Ended(ts) && p < |ts| && m < |ts| - 1 && q < |ts| && ts[m] == TOp("||") && ts[q] != TOp("&&")
    requires Reads(ts, p, 0, l, m, env) && Reads(ts, m + 1, 1, r, q, env)
    ensures Reads(ts, p, 0, Bin("||", l, r), q, env)
  {
  }

  lemma ReadsAnd(ts: seq<Token>, p: nat, m: nat, q: nat, l: Ast, r: Ast, env: Env)
    requires Ended(ts) && p < |ts| && m < |ts| - 1 && q < |ts| && ts[m] == TOp("&&")
    requires Reads(ts, p, 1, l, m, env) && Reads(ts, m + 1, 2, r, q, env)
    ensures Reads(ts, p, 1, Bin("&&", l, r), q, env)
  {
  }

  lemma ReadsCmp(ts: seq<Token>, p: nat, m: nat, q: nat, op: string, l: Ast, r: Ast, env: Env)
    requires Ended(ts) && p < |ts| && m < |ts| - 1 && q < |ts| && ts[m] == TOp(op) && IsCmp(TOp(op)) && !IsAdd(ts[q])
    requires Reads(ts, p, 3, l, m, env) && Reads(ts, m + 1, 3, r, q, env)
    ensures Reads(ts, p, 2, Bin(op, l, r), q, env)
  {
  }

  lemma ReadsAdd(ts: seq<Token>, p: nat, m: nat, q: nat, op: string, l: Ast, r: Ast, env: Env)
    requires Ended(ts) && p < |ts| && m < |ts| - 1 && q < |ts| && ts[m] == TOp(op) && IsAdd(TOp(op))
    requires Reads(ts, p, 3, l, m, env) && Reads(ts, m + 1, 4, r, q, env)
    ensures Reads(ts, p, 3, Bin(op, l, r), q, env)
  {
  }

  lemma ReadsParens(ts: seq<Token>, p: nat, a: Ast, q: nat, env: Env)
    requires Ended(ts) && p < |ts| - 1 && 0 < q < |ts| && ts[p] == TLParen && ts[q - 1] == TRParen
    requires Reads(ts, p + 1, 0, a, q - 1, env)
    ensures Reads(ts, p, 4, a, q, env)
  {
  }

  /** One token standing at a position is the token there. */
  lemma TokenAt(ts: seq<Token>, p: nat, t: Token)
    requires Stands(ts, p, [t])
    ensures ts[p] == t
  {
  }

  /** An operand printed at `level` is read back by the parser of that level. */
  lemma {:induction false} ReadsPrinted(ts: seq<Token>, p: nat, level: nat, a: Ast, env: Env)
    requires Ended(ts) && level <= 4 && Printable(a, env)
    requires Stands(ts, p, Print(a, level)) && Closes(ts[p + |Print(a, level)|], level)
    ensures Reads(ts, p, level, a, p + |Print(a, level)|, env)
    decreases a, 20, 0
  {
    if Prec(a) >= level {
      ReadsRaw(ts, p, level, a, env);
    } else {
      ParensStand(ts, p, Raw(a));
      ReadsWrapped(ts, p, level, a, env);
    }
  }

  /** Without parentheses: the parsers of the looser levels only pass it on. */
  lemma {:induction false} ReadsRaw(ts: seq<Token>, p: nat, level: nat, a: Ast, env: Env)
    requires Ended(ts) && level <= Prec(a) && Printable(a, env)
    requires Stands(ts, p, Raw(a)) && Closes(ts[p + |Raw(a)|], level)
    ensures Reads(ts, p, level, a, p + |Raw(a)|, env)
    decreases a, Prec(a) - level, 2
  {
    if level < Prec(a) {
      ReadsRaw(ts, p, level + 1, a, env);
      Lift(ts, p, level, a, p + |Raw(a)|, env);
    } else if a.Bin? {
      ReadsOperation(ts, p, a, env);
    } else {
      ReadsAtom(ts, p, a, env);
    }
  }

  /** In parentheses: read by the innermost parser, passed on by the others. */
  lemma {:induction false} ReadsWrapped(ts: seq<Token>, p: nat, level: nat, a: Ast, env: Env)
    requires Ended(ts) && level <= 4 && Printable(a, env) && p + 2 + |Raw(a)| < |ts|
    requires ts[p] == TLParen && Stands(ts, p + 1, Raw(a)) && ts[p + 1 + |Raw(a)|] == TRParen
    requires Closes(ts[p + 2 + |Raw(a)|], level)
    ensures Reads(ts, p, level, a, p + 2 + |Raw(a)|, env)
    decreases a, 14 - level, 2
  {
    var q := p + 2 + |Raw(a)|;
    if level < 4 {
      ReadsWrapped(ts, p, level + 1, a, env);
      Lift(ts, p, level, a, q, env);
    } else {
      ReadsRaw(ts, p + 1, 0, a, env);
      ReadsParens(ts, p, a, q, env);
    }
  }

  lemma OperandsStand(ts: seq<Token>, p: nat, l: seq<Token>, op: Token, r: seq<Token>)
    requires Stands(ts, p, l + [op] + r)
    ensures Stands(ts, p, l) && Stands(ts, p + |l| + 1, r) && ts[p + |l|] == op
  {
    StandsSplit(ts, p, l + [op], r);
    StandsSplit(ts, p, l, [op]);
    TokenAt(ts, p + |l|, op);
  }

  lemma Combine(ts: seq<Token>, p: nat, m: nat, q: nat, op: string, l: Ast, r: Ast, env: Env)
    requires Ended(ts) && p < |ts| && m < |ts| - 1 && q < |ts| && ts[m] == TOp(op) && Closes(ts[q], OpPrec(op))
    requires op == "||" || op == "&&" || IsCmp(TOp(op)) || IsAdd(TOp(op))
    requires Reads(ts, p, LeftLevel(op), l, m, env) && Reads(ts, m + 1, OpPrec(op) + 1, r, q, env)
    ensures Reads(ts, p, OpPrec(op), Bin(op, l, r), q, env)
  {
    hide Reads;
    if op == "||" {
      ReadsOr(ts, p, m, q, l, r, env);
    } else if op == "&&" {
      ReadsAnd(ts, p, m, q, l, r, env);
    } else if IsCmp(TOp(op)) {
      ReadsCmp(ts, p, m, q, op, l, r, env);
    } else {
      ReadsAdd(ts, p, m, q, op, l, r, env);
    }
  }

  lemma ParensStand(ts: seq<Token>, p: nat, x: seq<Token>)
    requires Stands(ts, p, [TLParen] + x + [TRParen])
    ensures ts[p] == TLParen && Stands(ts, p + 1, x) && ts[p + 1 + |x|] == TRParen && p + 2 + |x| < |ts|
  {
    StandsSplit(ts, p, [TLParen] + x, [TRParen]);
    StandsSplit(ts, p, [TLParen], x);
    TokenAt(ts, p, TLParen);
    TokenAt(ts, p + 1 + |x|, TRParen);
  }

  lemma {:induction false} ReadsOperation(ts: seq<Token>, p: nat, a: Ast, env: Env)
    requires Ended(ts) && a.Bin? && Printable(a, env)
    requires Stands(ts, p, Raw(a)) && Closes(ts[p + |Raw(a)|], Prec(a))
    ensures Reads(ts, p, Prec(a), a, p + |Raw(a)|, env)
    decreases a, 0, 1
  {
    OperandsStand(ts, p, Print(a.l, LeftLevel(a.op)), TOp(a.op), Print(a.r, OpPrec(a.op) + 1));
    ReadsOperands(ts, p, p + |Print(a.l, LeftLevel(a.op))|, a, env);
  }

  lemma {:induction false} ReadsOperands(ts: seq<Token>, p: nat, m: nat, a: Ast, env: Env)
    requires Ended(ts) && a.Bin? && Printable(a, env)
    requires Stands(ts, p, Print(a.l, LeftLevel(a.op))) && m == p + |Print(a.l, LeftLevel(a.op))| && ts[m] == TOp(a.op)
    requires Stands(ts, m + 1, Print(a.r, OpPrec(a.op) + 1))
    requires Closes(ts[m + 1 + |Print(a.r, OpPrec(a.op) + 1)|], OpPrec(a.op))
    ensures Reads(ts, p, OpPrec(a.op), Bin(a.op, a.l, a.r), m + 1 + |Print(a.r, OpPrec(a.op) + 1)|, env)
    decreases a, 0, 0
  {
    hide Reads, Print;
    ReadsPrinted(ts, p, LeftLevel(a.op), a.l, env);
    ReadsPrinted(ts, m + 1, OpPrec(a.op) + 1, a.r, env);
    Combine(ts, p, m, m + 1 + |Print(a.r, OpPrec(a.op) + 1)|, a.op, a.l, a.r, env);
  }

  lemma {:induction false} ReadsAtom(ts: seq<Token>, p: nat, a: Ast, env: Env)
    requires Ended(ts) && !a.Bin? && Printable(a, env)
    requires Stands(ts, p, Raw(a)) && Follow(ts[p + |Raw(a)|])
    ensures PaPrimary(ts, p, env) == Node(a, p + |Raw(a)|)
    decreases a, 0, 1
  {
    hide PaPrimary;
    match a {
      case Call(name, args) =>
        CallStands(ts, p, name, args);
        ReadsWholeCall(ts, p, a, env);
      case JsonPath(args, path) =>
        PathStands(ts, p, args, path);
        ReadsWholePath(ts, p, a, env);
      case _ => ReadsLeaf(ts, p, a, env);
    }
  }

  lemma {:induction false} ReadsWholeCall(ts: seq<Token>, p: nat, a: Ast, env: Env)
    requires Ended(ts) && a.Call? && Printable(a, env)
    requires var m := p + 2 + |PrintArgs(a.args)|;
             && m + 1 < |ts| && ts[p] == TIdent(a.fname) && ts[p + 1] == TLParen && ts[m] == TRParen
             && Follow(ts[m + 1]) && Stands(ts, p + 2, PrintArgs(a.args))
    ensures PaPrimary(ts, p, env) == Node(a, p + 3 + |PrintArgs(a.args)|)
    decreases a, 0, 0
  {
    hide PaPrimary, PaArgs, PrintArgs, Stands, Follow;
    ReadsArgs(ts, p + 2, a.args, env);
    ReadsCall(ts, p, a.fname, a.args, env);
  }

  lemma {:induction false} ReadsWholePath(ts: seq<Token>, p: nat, a: Ast, env: Env)
    requires Ended(ts) && a.JsonPath? && Printable(a, env)
    requires var m := p + 2 + |PrintArgs(a.args)|;
             && m + 2 < |ts| && ts[p] == TIdent("json") && ts[p + 1] == TLParen && ts[m] == TRParen
             && ts[m + 1] == TIdent("." + a.path) && Stands(ts, p + 2, PrintArgs(a.args))
    ensures PaPrimary(ts, p, env) == Node(a, p + 4 + |PrintArgs(a.args)|)
    decreases a, 0, 0
  {
    hide PaPrimary, PaArgs, PrintArgs, Stands;
    ReadsArgs(ts, p + 2, a.args, env);
    ReadsPath(ts, p, a.args, a.path, env);
  }

  lemma ReadsLeaf(ts: seq<Token>, p: nat, a: Ast, env: Env)
    requires Ended(ts) && (a.Num? || a.Str? || a.Ref?)
    requires Stands(ts, p, Raw(a)) && Follow(ts[p + 1])
    ensures PaPrimary(ts, p, env) == Node(a, p + 1)
  {
  }

  lemma ReadsCall(ts: seq<Token>, p: nat, name: string, args: seq<Ast>, env: Env)
    requires Ended(ts)
    requires var m := p + 2 + |PrintArgs(args)|;
             && m + 1 < |ts| && ts[p] == TIdent(name) && ts[p + 1] == TLParen && ts[m] == TRParen
             && Follow(ts[m + 1]) && PaArgs(ts, p + 2, env) == Nodes(args, m)
    ensures PaPrimary(ts, p, env) == Node(Call(name, args), p + 3 + |PrintArgs(args)|)
  {
  }

  lemma CallStands(ts: seq<Token>, p: nat, name: string, args: seq<Ast>)
    requires Stands(ts, p, [TIdent(name), TLParen] + PrintArgs(args) + [TRParen])
    ensures p + 3 + |PrintArgs(args)| < |ts| && ts[p] == TIdent(name) && ts[p + 1] == TLParen
    ensures Stands(ts, p + 2, PrintArgs(args)) && ts[p + 2 + |PrintArgs(args)|] == TRParen
  {
    ReadsHead(ts, p, name, args, [TRParen]);
    TokenAt(ts, p + 2 + |PrintArgs(args)|, TRParen);
  }

  lemma PathStands(ts: seq<Token>, p: nat, args: seq<Ast>, path: string)
    requires Stands(ts, p, [TIdent("json"), TLParen] + PrintArgs(args) + [TRParen, TIdent("." + path)])
    ensures p + 4 + |PrintArgs(args)| < |ts| && ts[p] == TIdent("json") && ts[p + 1] == TLParen
    ensures Stands(ts, p + 2, PrintArgs(args)) && ts[p + 2 + |PrintArgs(args)|] == TRParen
    ensures ts[p + 3 + |PrintArgs(args)|] == TIdent("." + path)
  {
    var m := p + 2 + |PrintArgs(args)|;
    ReadsHead(ts, p, "json", args, [TRParen, TIdent("." + path)]);
    assert [TRParen, TIdent("." + path)] == [TRParen] + [TIdent("." + path)];
    StandsSplit(ts, m, [TRParen], [TIdent("." + path)]);
    TokenAt(ts, m, TRParen);
    TokenAt(ts, m + 1, TIdent("." + path));
  }

  lemma ReadsPath(ts: seq<Token>, p: nat, args: seq<Ast>, path: string, env: Env)
    requires Ended(ts) && Loads(args, env)
    requires var m := p + 2 + |PrintArgs(args)|;
             && m + 2 < |ts| && ts[p] == TIdent("json") && ts[p + 1] == TLParen && ts[m] == TRParen
             && ts[m + 1] == TIdent("." + path) && PaArgs(ts, p + 2, env) == Nodes(args, m)
    ensures PaPrimary(ts, p, env) == Node(JsonPath(args, path), p + 4 + |PrintArgs(args)|)
  {
  }

  lemma ReadsHead(ts: seq<Token>, p: nat, name: string, args: seq<Ast>, tail: seq<Token>)
    requires Stands(ts, p, [TIdent(name), TLParen] + PrintArgs(args) + tail)
    ensures p + 2 + |PrintArgs(args)| < |ts| && ts[p] == TIdent(name) && ts[p + 1] == TLParen
    ensures Stands(ts, p + 2, PrintArgs(args)) && Stands(ts, p + 2 + |PrintArgs(args)|, tail)
  {
    StandsSplit(ts, p, [TIdent(name), TLParen] + PrintArgs(args), tail);
    StandsSplit(ts, p, [TIdent(name), TLParen], PrintArgs(args));
    assert [TIdent(name), TLParen] == [TIdent(name)] + [TLParen];
    StandsSplit(ts, p, [TIdent(name)], [TLParen]);
    TokenAt(ts, p, TIdent(name));
    TokenAt(ts, p + 1, TLParen);
  }

  /** One more argument in front of a comma, and the last one. */
  lemma ReadsOneArg(ts: seq<Token>, p: nat, m: nat, a: Ast, args: seq<Ast>, q: nat, env: Env)
    requires Ended(ts) && p < m < |ts| - 1 && q < |ts| && ts[p] != TRParen && ts[p] != TEOF
    requires Reads(ts, p, 0, a, m, env) && ts[m] == TComma
    requires PaArgs(ts, m + 1, env) == Nodes(args, q)
    ensures PaArgs(ts, p, env) == Nodes([a] + args, q)
  {
  }

  lemma ReadsLastArg(ts: seq<Token>, p: nat, m: nat, a: Ast, env: Env)
    requires Ended(ts) && p < m < |ts| && ts[p] != TRParen && ts[p] != TEOF
    requires Reads(ts, p, 0, a, m, env) && ts[m] == TRParen
    ensures PaArgs(ts, p, env) == Nodes([a], m)
  {
  }

  lemma {:induction false} ReadsArgs(ts: seq<Token>, p: nat, args: seq<Ast>, env: Env)
    requires Ended(ts) && (forall i :: 0 <= i < |args| ==> Printable(args[i], env))
    requires Stands(ts, p, PrintArgs(args)) && ts[p + |PrintArgs(args)|] == TRParen
    ensures PaArgs(ts, p, env) == Nodes(args, p + |PrintArgs(args)|)
    decreases args, 0, 1
  {
    hide Print, Reads, Printable;
    if |args| == 1 {
      var x := Print(args[0], 0);
      FirstTokenOpens(args[0]);
      FirstTokenAt(ts, p, x);
      ReadsPrinted(ts, p, 0, args[0], env);
      ReadsLastArg(ts, p, p + |x|, args[0], env);
      assert args == [args[0]];
    } else if |args| > 1 {
      OperandsStand(ts, p, Print(args[0], 0), TComma, PrintArgs(args[1..]));
      ReadsManyArgs(ts, p, args, env);
    }
  }

  lemma {:induction false} ReadsManyArgs(ts: seq<Token>, p: nat, args: seq<Ast>, env: Env)
    requires Ended(ts) && |args| > 1 && (forall i :: 0 <= i < |args| ==> Printable(args[i], env))
    requires Stands(ts, p, Print(args[0], 0)) && ts[p + |Print(args[0], 0)|] == TComma
    requires var m := p + |Print(args[0], 0)|;
             Stands(ts, m + 1, PrintArgs(args[1..])) && ts[m + 1 + |PrintArgs(args[1..])|] == TRParen
    ensures PaArgs(ts, p, env) == Nodes(args, p + |Print(args[0], 0)| + 1 + |PrintArgs(args[1..])|)
    decreases args, 0, 0
  {
    hide Print, Stands, Reads, Printable, PaArgs, PrintArgs;
    var x := Print(args[0], 0);
    var m := p + |x|;
    FirstTokenOpens(args[0]);
    FirstTokenAt(ts, p, x);
    ReadsPrinted(ts, p, 0, args[0], env);
    ReadsArgs(ts, m + 1, args[1..], env);
    ReadsOneArg(ts, p, m, args[0], args[1..], m + 1 + |PrintArgs(args[1..])|, env);
    assert args == [args[0]] + args[1..];
  }

  lemma FirstTokenAt(ts: seq<Token>, p: nat, x: seq<Token>)
    requires Stands(ts, p, x) && x != []
    ensures ts[p] == x[0]
  {
  }

  lemma {:induction false} FirstTokenOpens(a: Ast)
    ensures Raw(a) != [] && Raw(a)[0] != TRParen && Raw(a)[0] != TEOF
    ensures Print(a, 0) == Raw(a)
  {
    if a.Bin? {
      FirstTokenOpens(a.l);
      assert Raw(a)[0] == Print(a.l, LeftLevel(a.op))[0];
    }
  }

  // --- From text to text -------------------------------------------------------

  function Render(a: Ast): string {
    WriteAll(Print(a, 0))
  }

  ghost predicate AllWritable(ts: seq<Token>) {
    forall i :: 0 <= i < |ts| ==> Writable(ts[i])
  }

  lemma WritableJoin(a: seq<Token>, b: seq<Token>, c: seq<Token>)
    requires AllWritable(a) && AllWritable(b) && AllWritable(c)
    ensures AllWritable(a + b + c)
  {
  }

  lemma {:induction false} PrintedIsWritable(a: Ast, level: nat, env: Env)
    requires Printable(a, env)
    ensures AllWritable(Print(a, level))
    decreases a, 1
  {
    RawIsWritable(a, env);
    WritableJoin([TLParen], Raw(a), [TRParen]);
  }

  lemma {:induction false} RawIsWritable(a: Ast, env: Env)
    requires Printable(a, env)
    ensures AllWritable(Raw(a))
    decreases a, 0
  {
    match a {
      case Bin(op, l, r) =>
        PrintedIsWritable(l, LeftLevel(op), env);
        PrintedIsWritable(r, OpPrec(op) + 1, env);
        WritableJoin(Print(l, LeftLevel(op)), [TOp(op)], Print(r, OpPrec(op) + 1));
      case Call(name, args) =>
        ArgsAreWritable(args, env);
        WritableJoin([TIdent(name), TLParen], PrintArgs(args), [TRParen]);
      case JsonPath(args, path) =>
        ArgsAreWritable(args, env);
        WritableJoin([TIdent("json"), TLParen], PrintArgs(args), [TRParen, TIdent("." + path)]);
      case _ =>
    }
  }

  lemma {:induction false} ArgsAreWritable(args: seq<Ast>, env: Env)
    requires forall i :: 0 <= i < |args| ==> Printable(args[i], env)
    ensures AllWritable(PrintArgs(args))
    decreases args, 0
  {
    if args != [] {
      PrintedIsWritable(args[0], 0, env);
      ArgsAreWritable(args[1..], env);
      WritableJoin(Print(args[0], 0), [TComma], PrintArgs(args[1..]));
    }
  }

  /** Printing a tree and evaluating the text gives the tree's meaning, and the
      text parses back to the very same tree. */
  lemma RoundTrip(a: Ast, env: Env)
    requires Printable(a, env)
    ensures ParseTokens(Print(a, 0) + [TEOF], env) == Some(a)
    ensures EvalExpr(Render(a), env) == Eval(a, env)
  {
    var ts := Print(a, 0) + [TEOF];
    PrintedIsWritable(a, 0, env);
    LexOfWritten(Print(a, 0));
    ReadsPrinted(ts, 0, 0, a, env);
    FusedIsParseThenEval(ts, env);
  }
}
