/** When the tree of a guard depends on the environment: on which json(...) calls it is asked. */
module GuardSame {
  import opened ExecSlot
  import opened Expr
  import opened GuardAst
  import opened GuardEval
  import opened Text
  import opened Tokenizer

  // --- Agreement --------------------------------------------------------------

  // Two environments agree on a stretch of tokens when, for every json(...) call that the
  // parser meets there and that a dotted name follows, both load its artifact or neither does.

  ghost predicate AgreeOr(ts: seq<Token>, p: nat, e: Env, f: Env)
    requires Ended(ts) && p < |ts|
    decreases |ts| - p, 10
  {
    && AgreeAnd(ts, p, e, f)
    && var t := PaAnd(ts, p, e); t.Node? ==> AgreeOrRest(ts, t.pos, e, f)
  }

  ghost predicate AgreeOrRest(ts: seq<Token>, q: nat, e: Env, f: Env)
    requires Ended(ts) && q < |ts|
    decreases |ts| - q, 9
  {
    ts[q] == TOp("||") ==>
      && AgreeAnd(ts, q + 1, e, f)
      && var t := PaAnd(ts, q + 1, e); t.Node? ==> AgreeOrRest(ts, t.pos, e, f)
  }

  ghost predicate AgreeAnd(ts: seq<Token>, p: nat, e: Env, f: Env)
    requires Ended(ts) && p < |ts|
    decreases |ts| - p, 8
  {
    && AgreeCmp(ts, p, e, f)
    && var t := PaCmp(ts, p, e); t.Node? ==> AgreeAndRest(ts, t.pos, e, f)
  }

  ghost predicate AgreeAndRest(ts: seq<Token>, q: nat, e: Env, f: Env)
    requires Ended(ts) && q < |ts|
    decreases |ts| - q, 7
  {
    ts[q] == TOp("&&") ==>
      && AgreeCmp(ts, q + 1, e, f)
      && var t := PaCmp(ts, q + 1, e); t.Node? ==> AgreeAndRest(ts, t.pos, e, f)
  }

  ghost predicate AgreeCmp(ts: seq<Token>, p: nat, e: Env, f: Env)
    requires Ended(ts) && p < |ts|
    decreases |ts| - p, 6
  {
    && AgreeAdd(ts, p, e, f)
    && var t := PaAdd(ts, p, e); t.Node? && IsCmp(ts[t.pos]) ==> AgreeAdd(ts, t.pos + 1, e, f)
  }

  ghost predicate AgreeAdd(ts: seq<Token>, p: nat, e: Env, f: Env)
    requires Ended(ts) && p < |ts|
    decreases |ts| - p, 5
  {
    && AgreePrimary(ts, p, e, f)
    && var t := PaPrimary(ts, p, e); t.Node? ==> AgreeAddRest(ts, t.pos, e, f)
  }

  ghost predicate AgreeAddRest(ts: seq<Token>, q: nat, e: Env, f: Env)
    requires Ended(ts) && q < |ts|
    decreases |ts| - q, 4
  {
    IsAdd(ts[q]) ==>
      && AgreePrimary(ts, q + 1, e, f)
      && var t := PaPrimary(ts, q + 1, e); t.Node? ==> AgreeAddRest(ts, t.pos, e, f)
  }

  ghost predicate AgreePrimary(ts: seq<Token>, p: nat, e: Env, f: Env)
    requires Ended(ts) && p < |ts|
    decreases |ts| - p, 3
  {
    && (ts[p] == TLParen ==> AgreeOr(ts, p + 1, e, f))
    && (ts[p].TIdent? && ts[p + 1] == TLParen ==> AgreeCall(ts, p + 1, ts[p].s, e, f))
  }

  ghost predicate AgreeCall(ts: seq<Token>, p: nat, name: string, e: Env, f: Env)
    requires Ended(ts) && p < |ts| && ts[p] == TLParen
    decreases |ts| - p, 2
  {
    && AgreeArgs(ts, p + 1, e, f)
    && var t := PaArgs(ts, p + 1, e);
       Asks(ts, name, t) ==> (Loads(t.as_, e) <==> Loads(t.as_, f))
  }

  ghost predicate AgreeArgs(ts: seq<Token>, p: nat, e: Env, f: Env)
    requires Ended(ts) && p < |ts|
    decreases |ts| - p, 11
  {
    (ts[p] != TRParen && ts[p] != TEOF) ==>
      && AgreeOr(ts, p, e, f)
      && var t := PaOr(ts, p, e); t.Node? ==> AgreeArgs(ts, NextArg(ts, t.pos), e, f)
  }

  /** A json call, closed, with a dotted name after it: the parser asks whether it loads. */
  predicate Asks(ts: seq<Token>, name: string, t: Trees)
    requires Ended(ts) && (t.Nodes? ==> t.pos < |ts|)
  {
    t.Nodes? && ts[t.pos] == TRParen && name == "json" && IsDotted(ts[t.pos + 1])
  }

  function NextArg(ts: seq<Token>, q: nat): (r: nat)
    requires Ended(ts) && q < |ts|
    ensures q <= r < |ts|
  {
    if ts[q] == TComma then q + 1 else q
  }

  // --- Trees that part ----------------------------------------------------------

  datatype Mark = Leaf(a: Ast) | Oper(op: string) | Begin(name: string) | EndCall | EndPath(path: string)

  /** A tree read from left to right. */
  function Marks(a: Ast): seq<Mark> {
    match a
    case Bin(op, l, r) => Marks(l) + [Oper(op)] + Marks(r)
    case Call(name, args) => [Begin(name)] + AllMarks(args) + [EndCall]
    case JsonPath(args, path) => [Begin("json")] + AllMarks(args) + [EndPath(path)]
    case _ => [Leaf(a)]
  }

  function AllMarks(args: seq<Ast>): seq<Mark> {
    if args == [] then [] else Marks(args[0]) + AllMarks(args[1..])
  }

  /** The two readings go together up to some place and differ there. */
  ghost predicate Part(x: seq<Mark>, y: seq<Mark>) {
    exists m: nat :: PartAt(x, y, m)
  }

  ghost predicate PartAt(x: seq<Mark>, y: seq<Mark>, m: nat) {
    m < |x| && m < |y| && x[..m] == y[..m] && x[m] != y[m]
  }

  lemma PartsAfter(w: seq<Mark>, x: seq<Mark>, y: seq<Mark>)
    requires Part(x, y)
    ensures Part(w + x, w + y)
  {
    var m: nat :| PartAt(x, y, m);
    assert (w + x)[..|w| + m] == w + x[..m] && (w + y)[..|w| + m] == w + y[..m];
    assert PartAt(w + x, w + y, |w| + m);
  }

  lemma PartsBefore(x: seq<Mark>, y: seq<Mark>, u: seq<Mark>, v: seq<Mark>)
    requires Part(x, y) && x <= u && y <= v
    ensures Part(u, v)
  {
    var m: nat :| PartAt(x, y, m);
    assert u[..m] == x[..m] && v[..m] == y[..m];
    assert PartAt(u, v, m);
  }

  /** Two operands that part still part as the right operands of equal left ones. */
  lemma BinsPart(op: string, l: Ast, x: Ast, y: Ast)
    requires Part(Marks(x), Marks(y))
    ensures Part(Marks(Bin(op, l, x)), Marks(Bin(op, l, y)))
  {
    PartsAfter(Marks(l) + [Oper(op)], Marks(x), Marks(y));
  }

  /** What a loop returns begins with the operand it was given. */
  lemma {:induction false} OrRestExtends(ts: seq<Token>, q: nat, left: Ast, env: Env)
    requires Ended(ts) && q < |ts| && PaOrRest(ts, q, left, env).Node?
    ensures Marks(left) <= Marks(PaOrRest(ts, q, left, env).a)
    decreases |ts| - q
  {
    hide Marks;
    if ts[q] == TOp("||") {
      var t := PaAnd(ts, q + 1, env);
      BinExtends("||", left, t.a);
      OrRestExtends(ts, t.pos, Bin("||", left, t.a), env);
    }
  }

  lemma {:induction false} AndRestExtends(ts: seq<Token>, q: nat, left: Ast, env: Env)
    requires Ended(ts) && q < |ts| && PaAndRest(ts, q, left, env).Node?
    ensures Marks(left) <= Marks(PaAndRest(ts, q, left, env).a)
    decreases |ts| - q
  {
    hide Marks;
    if ts[q] == TOp("&&") {
      var t := PaCmp(ts, q + 1, env);
      BinExtends("&&", left, t.a);
      AndRestExtends(ts, t.pos, Bin("&&", left, t.a), env);
    }
  }

  lemma {:induction false} AddRestExtends(ts: seq<Token>, q: nat, left: Ast, env: Env)
    requires Ended(ts) && q < |ts| && PaAddRest(ts, q, left, env).Node?
    ensures Marks(left) <= Marks(PaAddRest(ts, q, left, env).a)
    decreases |ts| - q
  {
    hide Marks;
    if IsAdd(ts[q]) {
      var t := PaPrimary(ts, q + 1, env);
      BinExtends(ts[q].s, left, t.a);
      AddRestExtends(ts, t.pos, Bin(ts[q].s, left, t.a), env);
    }
  }

  lemma BinExtends(op: string, l: Ast, r: Ast)
    ensures Marks(l) <= Marks(Bin(op, l, r))
  {
  }

  /** No tree, or trees that part. */
  ghost predicate Apart(x: Tree, y: Tree) {
    x.Node? && y.Node? ==> Part(Marks(x.a), Marks(y.a))
  }

  ghost predicate AllApart(x: Trees, y: Trees) {
    x.Nodes? && y.Nodes? ==> Part(AllMarks(x.as_), AllMarks(y.as_))
  }

  // --- Agreement decides ----------------------------------------------------------

  lemma {:induction false} OrDecides(ts: seq<Token>, p: nat, e: Env, f: Env)
    requires Ended(ts) && p < |ts|
    ensures if AgreeOr(ts, p, e, f) then PaOr(ts, p, e) == PaOr(ts, p, f) else Apart(PaOr(ts, p, e), PaOr(ts, p, f))
    decreases |ts| - p, 10
  {
    hide Marks, Part;
    AndDecides(ts, p, e, f);
    var t, u := PaAnd(ts, p, e), PaAnd(ts, p, f);
    if AgreeAnd(ts, p, e, f) {
      if t.Node? { OrRestDecides(ts, t.pos, t.a, e, f); }
    } else if PaOr(ts, p, e).Node? && PaOr(ts, p, f).Node? {
      OrRestExtends(ts, t.pos, t.a, e);
      OrRestExtends(ts, u.pos, u.a, f);
      PartsBefore(Marks(t.a), Marks(u.a), Marks(PaOr(ts, p, e).a), Marks(PaOr(ts, p, f).a));
    }
  }

  lemma {:induction false} OrRestDecides(ts: seq<Token>, q: nat, left: Ast, e: Env, f: Env)
    requires Ended(ts) && q < |ts|
    ensures if AgreeOrRest(ts, q, e, f) then PaOrRest(ts, q, left, e) == PaOrRest(ts, q, left, f)
            else Apart(PaOrRest(ts, q, left, e), PaOrRest(ts, q, left, f))
    decreases |ts| - q, 9
  {
    hide Marks, Part;
    if ts[q] == TOp("||") {
      AndDecides(ts, q + 1, e, f);
      var t, u := PaAnd(ts, q + 1, e), PaAnd(ts, q + 1, f);
      if AgreeAnd(ts, q + 1, e, f) {
        if t.Node? { OrRestDecides(ts, t.pos, Bin("||", left, t.a), e, f); }
      } else if PaOrRest(ts, q, left, e).Node? && PaOrRest(ts, q, left, f).Node? {
        var x, y := Bin("||", left, t.a), Bin("||", left, u.a);
        BinsPart("||", left, t.a, u.a);
        OrRestExtends(ts, t.pos, x, e);
        OrRestExtends(ts, u.pos, y, f);
        PartsBefore(Marks(x), Marks(y), Marks(PaOrRest(ts, q, left, e).a), Marks(PaOrRest(ts, q, left, f).a));
      }
    }
  }

  lemma {:induction false} AndDecides(ts: seq<Token>, p: nat, e: Env, f: Env)
    requires Ended(ts) && p < |ts|
    ensures if AgreeAnd(ts, p, e, f) then PaAnd(ts, p, e) == PaAnd(ts, p, f) else Apart(PaAnd(ts, p, e), PaAnd(ts, p, f))
    decreases |ts| - p, 8
  {
    hide Marks, Part;
    CmpDecides(ts, p, e, f);
    var t, u := PaCmp(ts, p, e), PaCmp(ts, p, f);
    if AgreeCmp(ts, p, e, f) {
      if t.Node? { AndRestDecides(ts, t.pos, t.a, e, f); }
    } else if PaAnd(ts, p, e).Node? && PaAnd(ts, p, f).Node? {
      AndRestExtends(ts, t.pos, t.a, e);
      AndRestExtends(ts, u.pos, u.a, f);
      PartsBefore(Marks(t.a), Marks(u.a), Marks(PaAnd(ts, p, e).a), Marks(PaAnd(ts, p, f).a));
    }
  }

  lemma {:induction false} AndRestDecides(ts: seq<Token>, q: nat, left: Ast, e: Env, f: Env)
    requires Ended(ts) && q < |ts|
    ensures if AgreeAndRest(ts, q, e, f) then PaAndRest(ts, q, left, e) == PaAndRest(ts, q, left, f)
            else Apart(PaAndRest(ts, q, left, e), PaAndRest(ts, q, left, f))
    decreases |ts| - q, 7
  {
    hide Marks, Part;
    if ts[q] == TOp("&&") {
      CmpDecides(ts, q + 1, e, f);
      var t, u := PaCmp(ts, q + 1, e), PaCmp(ts, q + 1, f);
      if AgreeCmp(ts, q + 1, e, f) {
        if t.Node? { AndRestDecides(ts, t.pos, Bin("&&", left, t.a), e, f); }
      } else if PaAndRest(ts, q, left, e).Node? && PaAndRest(ts, q, left, f).Node? {
        var x, y := Bin("&&", left, t.a), Bin("&&", left, u.a);
        BinsPart("&&", left, t.a, u.a);
        AndRestExtends(ts, t.pos, x, e);
        AndRestExtends(ts, u.pos, y, f);
        PartsBefore(Marks(x), Marks(y), Marks(PaAndRest(ts, q, left, e).a), Marks(PaAndRest(ts, q, left, f).a));
      }
    }
  }

  lemma {:induction false} CmpDecides(ts: seq<Token>, p: nat, e: Env, f: Env)
    requires Ended(ts) && p < |ts|
    ensures if AgreeCmp(ts, p, e, f) then PaCmp(ts, p, e) == PaCmp(ts, p, f) else Apart(PaCmp(ts, p, e), PaCmp(ts, p, f))
    decreases |ts| - p, 6
  {
    hide Marks, Part;
    AddDecides(ts, p, e, f);
    var t, u := PaAdd(ts, p, e), PaAdd(ts, p, f);
    if AgreeAdd(ts, p, e, f) {
      if t.Node? && IsCmp(ts[t.pos]) {
        AddDecides(ts, t.pos + 1, e, f);
        var v, w := PaAdd(ts, t.pos + 1, e), PaAdd(ts, t.pos + 1, f);
        if !AgreeAdd(ts, t.pos + 1, e, f) && v.Node? && w.Node? { BinsPart(ts[t.pos].s, t.a, v.a, w.a); }
      }
    } else if PaCmp(ts, p, e).Node? && PaCmp(ts, p, f).Node? {
      CmpExtends(ts, p, e);
      CmpExtends(ts, p, f);
      PartsBefore(Marks(t.a), Marks(u.a), Marks(PaCmp(ts, p, e).a), Marks(PaCmp(ts, p, f).a));
    }
  }

  lemma CmpExtends(ts: seq<Token>, p: nat, env: Env)
    requires Ended(ts) && p < |ts| && PaCmp(ts, p, env).Node?
    ensures PaAdd(ts, p, env).Node? && Marks(PaAdd(ts, p, env).a) <= Marks(PaCmp(ts, p, env).a)
  {
    hide Marks;
    var t := PaAdd(ts, p, env);
    if IsCmp(ts[t.pos]) { BinExtends(ts[t.pos].s, t.a, PaAdd(ts, t.pos + 1, env).a); }
  }

  lemma {:induction false} AddDecides(ts: seq<Token>, p: nat, e: Env, f: Env)
    requires Ended(ts) && p < |ts|
    ensures if AgreeAdd(ts, p, e, f) then PaAdd(ts, p, e) == PaAdd(ts, p, f) else Apart(PaAdd(ts, p, e), PaAdd(ts, p, f))
    decreases |ts| - p, 5
  {
    hide Marks, Part;
    PrimaryDecides(ts, p, e, f);
    var t, u := PaPrimary(ts, p, e), PaPrimary(ts, p, f);
    if AgreePrimary(ts, p, e, f) {
      if t.Node? { AddRestDecides(ts, t.pos, t.a, e, f); }
    } else if PaAdd(ts, p, e).Node? && PaAdd(ts, p, f).Node? {
      AddRestExtends(ts, t.pos, t.a, e);
      AddRestExtends(ts, u.pos, u.a, f);
      PartsBefore(Marks(t.a), Marks(u.a), Marks(PaAdd(ts, p, e).a), Marks(PaAdd(ts, p, f).a));
    }
  }

  lemma {:induction false} AddRestDecides(ts: seq<Token>, q: nat, left: Ast, e: Env, f: Env)
    requires Ended(ts) && q < |ts|
    ensures if AgreeAddRest(ts, q, e, f) then PaAddRest(ts, q, left, e) == PaAddRest(ts, q, left, f)
            else Apart(PaAddRest(ts, q, left, e), PaAddRest(ts, q, left, f))
    decreases |ts| - q, 4
  {
    hide Marks, Part;
    if IsAdd(ts[q]) {
      PrimaryDecides(ts, q + 1, e, f);
      var t, u := PaPrimary(ts, q + 1, e), PaPrimary(ts, q + 1, f);
      if AgreePrimary(ts, q + 1, e, f) {
        if t.Node? { AddRestDecides(ts, t.pos, Bin(ts[q].s, left, t.a), e, f); }
      } else if PaAddRest(ts, q, left, e).Node? && PaAddRest(ts, q, left, f).Node? {
        var x, y := Bin(ts[q].s, left, t.a), Bin(ts[q].s, left, u.a);
        BinsPart(ts[q].s, left, t.a, u.a);
        AddRestExtends(ts, t.pos, x, e);
        AddRestExtends(ts, u.pos, y, f);
        PartsBefore(Marks(x), Marks(y), Marks(PaAddRest(ts, q, left, e).a), Marks(PaAddRest(ts, q, left, f).a));
      }
    }
  }

  lemma {:induction false} PrimaryDecides(ts: seq<Token>, p: nat, e: Env, f: Env)
    requires Ended(ts) && p < |ts|
    ensures if AgreePrimary(ts, p, e, f) then PaPrimary(ts, p, e) == PaPrimary(ts, p, f)
            else Apart(PaPrimary(ts, p, e), PaPrimary(ts, p, f))
    decreases |ts| - p, 3
  {
    hide Marks, Part;
    if ts[p] == TLParen {
      OrDecides(ts, p + 1, e, f);
    } else if ts[p].TIdent? && ts[p + 1] == TLParen {
      CallDecides(ts, p + 1, ts[p].s, e, f);
    }
  }

  lemma {:induction false} CallDecides(ts: seq<Token>, p: nat, name: string, e: Env, f: Env)
    requires Ended(ts) && p < |ts| && ts[p] == TLParen
    ensures if AgreeCall(ts, p, name, e, f) then PaCall(ts, p, name, e) == PaCall(ts, p, name, f)
            else Apart(PaCall(ts, p, name, e), PaCall(ts, p, name, f))
    decreases |ts| - p, 2
  {
    hide Marks, Part, Loads;
    ArgsDecide(ts, p + 1, e, f);
    var t, u := PaArgs(ts, p + 1, e), PaArgs(ts, p + 1, f);
    var x, y := PaCall(ts, p, name, e), PaCall(ts, p, name, f);
    if !AgreeCall(ts, p, name, e, f) && x.Node? && y.Node? {
      CallMarks(ts, p, name, e);
      CallMarks(ts, p, name, f);
      if AgreeArgs(ts, p + 1, e, f) {
        EndsPart(Marks(x.a), Marks(y.a), [Begin(name)] + AllMarks(t.as_));
      } else {
        PartsAfter([Begin(name)], AllMarks(t.as_), AllMarks(u.as_));
        PartsBefore([Begin(name)] + AllMarks(t.as_), [Begin(name)] + AllMarks(u.as_), Marks(x.a), Marks(y.a));
      }
    }
  }

  /** How the reading of a call ends. */
  lemma CallMarks(ts: seq<Token>, p: nat, name: string, env: Env)
    requires Ended(ts) && p < |ts| && ts[p] == TLParen && PaCall(ts, p, name, env).Node?
    ensures var t := PaArgs(ts, p + 1, env);
            t.Nodes? && Marks(PaCall(ts, p, name, env).a) == [Begin(name)] + AllMarks(t.as_) +
                        (if Asks(ts, name, t) && Loads(t.as_, env) then [EndPath(ts[t.pos + 1].s[1..])] else [EndCall])
  {
    hide Loads;
  }

  lemma EndsPart(x: seq<Mark>, y: seq<Mark>, w: seq<Mark>)
    requires |x| == |y| == |w| + 1 && w <= x && w <= y && x[|w|] != y[|w|]
    ensures Part(x, y)
  {
    assert PartAt(x, y, |w|);
  }

  lemma {:induction false} ArgsDecide(ts: seq<Token>, p: nat, e: Env, f: Env)
    requires Ended(ts) && p < |ts|
    ensures if AgreeArgs(ts, p, e, f) then PaArgs(ts, p, e) == PaArgs(ts, p, f) else AllApart(PaArgs(ts, p, e), PaArgs(ts, p, f))
    decreases |ts| - p, 11
  {
    hide Marks, Part, AllMarks;
    if ts[p] != TRParen && ts[p] != TEOF {
      OrDecides(ts, p, e, f);
      var t, u := PaOr(ts, p, e), PaOr(ts, p, f);
      var x, y := PaArgs(ts, p, e), PaArgs(ts, p, f);
      if AgreeOr(ts, p, e, f) {
        if t.Node? {
          var n := NextArg(ts, t.pos);
          ArgsDecide(ts, n, e, f);
          var v, w := PaArgs(ts, n, e), PaArgs(ts, n, f);
          if !AgreeArgs(ts, n, e, f) && v.Nodes? && w.Nodes? {
            FirstMarks(t.a, v.as_);
            FirstMarks(t.a, w.as_);
            PartsAfter(Marks(t.a), AllMarks(v.as_), AllMarks(w.as_));
          }
        }
      } else if x.Nodes? && y.Nodes? {
        FirstMarks(t.a, PaArgs(ts, NextArg(ts, t.pos), e).as_);
        FirstMarks(u.a, PaArgs(ts, NextArg(ts, u.pos), f).as_);
        PartsBefore(Marks(t.a), Marks(u.a), AllMarks(x.as_), AllMarks(y.as_));
      }
    }
  }

  lemma FirstMarks(a: Ast, rest: seq<Ast>)
    ensures AllMarks([a] + rest) == Marks(a) + AllMarks(rest)
  {
    assert ([a] + rest)[1..] == rest;
  }

  /** A text has the same tree in two environments exactly when they agree, for every json(...)
      call with a dotted name after it that the parser meets, on whether it loads; or when the
      text has no tree in either. */
  lemma SameTreeExactly(ts: seq<Token>, e: Env, f: Env)
    requires Ended(ts)
    ensures ParseTokens(ts, e) == ParseTokens(ts, f) <==>
            AgreeOr(ts, 0, e, f) || (ParseTokens(ts, e).None? && ParseTokens(ts, f).None?)
  {
    OrDecides(ts, 0, e, f);
  }

  // --- A test on the tokens alone ---------------------------------------------------

  /** No closing parenthesis is followed by an identifier that starts with a dot. */
  ghost predicate NoPathAfterCall(ts: seq<Token>) {
    forall i :: 0 <= i < |ts| - 1 && ts[i] == TRParen ==> !IsDotted(ts[i + 1])
  }

  ghost predicate AgreeAt(ts: seq<Token>, p: nat, e: Env, f: Env)
    requires Ended(ts) && p < |ts|
  {
    && AgreeOr(ts, p, e, f) && AgreeOrRest(ts, p, e, f) && AgreeAnd(ts, p, e, f) && AgreeAndRest(ts, p, e, f)
    && AgreeCmp(ts, p, e, f) && AgreeAdd(ts, p, e, f) && AgreeAddRest(ts, p, e, f) && AgreePrimary(ts, p, e, f)
    && AgreeArgs(ts, p, e, f)
  }

  lemma {:induction false} NothingIsAsked(ts: seq<Token>, p: nat, e: Env, f: Env)
    requires Ended(ts) && NoPathAfterCall(ts)
    ensures forall q :: p <= q < |ts| ==> AgreeAt(ts, q, e, f)
    decreases |ts| - p
  {
    hide AgreeAt;
    if p < |ts| {
      NothingIsAsked(ts, p + 1, e, f);
      PrimaryAgreesAt(ts, p, e, f);
      SumsAgreeAt(ts, p, e, f);
      ClausesAgreeAt(ts, p, e, f);
      LoopsAgree(ts, p, e, f);
      AgreeAtOnce(ts, p, e, f);
    }
  }

  lemma AgreeAtOnce(ts: seq<Token>, p: nat, e: Env, f: Env)
    requires Ended(ts) && p < |ts| && AgreeOr(ts, p, e, f) && AgreeAnd(ts, p, e, f) && AgreeCmp(ts, p, e, f)
    requires AgreeAdd(ts, p, e, f) && AgreePrimary(ts, p, e, f) && AgreeArgs(ts, p, e, f)
    requires AgreeOrRest(ts, p, e, f) && AgreeAndRest(ts, p, e, f) && AgreeAddRest(ts, p, e, f)
    ensures AgreeAt(ts, p, e, f)
  {
  }

  lemma LoopsAgree(ts: seq<Token>, p: nat, e: Env, f: Env)
    requires Ended(ts) && p < |ts| && forall q :: p < q < |ts| ==> AgreeAt(ts, q, e, f)
    ensures AgreeOrRest(ts, p, e, f) && AgreeAndRest(ts, p, e, f) && AgreeAddRest(ts, p, e, f)
  {
    if ts[p] == TOp("||") {
      assert AgreeAt(ts, p + 1, e, f);
      var t := PaAnd(ts, p + 1, e);
      if t.Node? { assert AgreeAt(ts, t.pos, e, f); }
    }
    if ts[p] == TOp("&&") {
      assert AgreeAt(ts, p + 1, e, f);
      var t := PaCmp(ts, p + 1, e);
      if t.Node? { assert AgreeAt(ts, t.pos, e, f); }
    }
    if IsAdd(ts[p]) {
      assert AgreeAt(ts, p + 1, e, f);
      var t := PaPrimary(ts, p + 1, e);
      if t.Node? { assert AgreeAt(ts, t.pos, e, f); }
    }
  }

  lemma PrimaryAgreesAt(ts: seq<Token>, p: nat, e: Env, f: Env)
    requires Ended(ts) && p < |ts| && forall q :: p < q < |ts| ==> AgreeAt(ts, q, e, f)
    requires NoPathAfterCall(ts)
    ensures AgreePrimary(ts, p, e, f)
  {
    hide PaOr, PaArgs;
    if ts[p] == TLParen || ts[p].TIdent? {
      assert AgreeAt(ts, p + 1, e, f);
      if ts[p + 1] == TLParen { assert AgreeAt(ts, p + 2, e, f); }
    }
  }

  lemma SumsAgreeAt(ts: seq<Token>, p: nat, e: Env, f: Env)
    requires Ended(ts) && p < |ts| && forall q :: p < q < |ts| ==> AgreeAt(ts, q, e, f)
    requires AgreePrimary(ts, p, e, f)
    ensures AgreeAdd(ts, p, e, f) && AgreeCmp(ts, p, e, f)
  {
    hide PaPrimary, PaAdd, AgreePrimary, AgreeOr, AgreeAnd, AgreeArgs;
    var a := PaPrimary(ts, p, e);
    if a.Node? { assert AgreeAt(ts, a.pos, e, f); }
    var b := PaAdd(ts, p, e);
    if b.Node? && IsCmp(ts[b.pos]) { assert AgreeAt(ts, b.pos + 1, e, f); }
  }

  lemma ClausesAgreeAt(ts: seq<Token>, p: nat, e: Env, f: Env)
    requires Ended(ts) && p < |ts| && forall q :: p < q < |ts| ==> AgreeAt(ts, q, e, f)
    requires AgreeCmp(ts, p, e, f)
    ensures AgreeAnd(ts, p, e, f) && AgreeOr(ts, p, e, f) && AgreeArgs(ts, p, e, f)
  {
    hide PaCmp, PaAnd, PaOr, AgreePrimary, AgreeAdd, AgreeCmp;
    var c := PaCmp(ts, p, e);
    if c.Node? { assert AgreeAt(ts, c.pos, e, f); }
    var d := PaAnd(ts, p, e);
    if d.Node? { assert AgreeAt(ts, d.pos, e, f); }
    var o := PaOr(ts, p, e);
    if o.Node? { assert AgreeAt(ts, NextArg(ts, o.pos), e, f); }
  }

  /** Without a dotted name after a closing parenthesis the tree is the same everywhere. */
  lemma SameWithoutPaths(ts: seq<Token>, e: Env, f: Env)
    requires Ended(ts) && NoPathAfterCall(ts)
    ensures ParseTokens(ts, e) == ParseTokens(ts, f)
  {
    NothingIsAsked(ts, 0, e, f);
    assert AgreeAt(ts, 0, e, f);
    SameTreeExactly(ts, e, f);
  }

  /** Otherwise it can: `json('f').x != v` is an expression where `f` loads, and
      an error, so a guard that fails, where it does not. */
  lemma PathOfMissingArtifactIsAnError(f: string, v: string, env: Env)
    ensures var ts := [TIdent("json"), TLParen, TStr(f), TRParen, TIdent(".x"), TOp("!="), TStr(v), TEOF];
            && (JsonOf([VStr(f)], env).None? ==> EvalTokens(ts, env) == None)
            && (JsonOf([VStr(f)], env).Some? ==> EvalTokens(ts, env).Some?)
  {
    var ts := [TIdent("json"), TLParen, TStr(f), TRParen, TIdent(".x"), TOp("!="), TStr(v), TEOF];
    assert EvPrimary(ts, 2, env) == Ok(VStr(f), 3);
    assert EvAdd(ts, 2, env) == Ok(VStr(f), 3);
    assert EvCmp(ts, 2, env) == Ok(VStr(f), 3);
    assert EvAnd(ts, 2, env) == Ok(VStr(f), 3);
    assert EvOr(ts, 2, env) == Ok(VStr(f), 3);
    assert EvArgs(ts, 3, env) == ArgsOk([], 3);
    assert EvArgs(ts, 2, env) == ArgsOk([VStr(f)], 3);
    assert EvPrimary(ts, 0, env) == EvCall(ts, 1, "json", env);
    if JsonOf([VStr(f)], env).None? {
      assert EvPrimary(ts, 0, env) == Ok(VNil, 4);
      assert EvAdd(ts, 0, env) == Ok(VNil, 4);
      assert EvCmp(ts, 0, env) == Ok(VNil, 4);
      assert EvAnd(ts, 0, env) == Ok(VNil, 4);
      assert EvOr(ts, 0, env) == Ok(VNil, 4);
    } else {
      var x := DigPath(JsonOf([VStr(f)], env).value, ".x"[1..]);
      assert EvPrimary(ts, 0, env) == Ok(x, 5);
      assert EvAdd(ts, 0, env) == Ok(x, 5);
      assert EvAdd(ts, 6, env) == Ok(VStr(v), 7);
      assert EvCmp(ts, 0, env).Ok? && EvCmp(ts, 0, env).pos == 7;
      assert EvAnd(ts, 0, env) == EvCmp(ts, 0, env);
      assert EvOr(ts, 0, env) == EvAnd(ts, 0, env);
    }
  }
}
