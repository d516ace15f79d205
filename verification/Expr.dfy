/** Values of guard expressions, their coercions, and the data they refer to. */
module Expr {
  import opened ExecSlot
  import opened Text

  /** A value of type `any`: what JSON decoding and the engine put in variables. */
  datatype Value =
    | VNil
    | VBool(b: bool)
    | VNum(f: real)
    | VInt(i: int)
    | VInt64(l: int)
    | VStr(s: string)
    | VMap(m: map<string, Value>)
    | VList(items: seq<Value>)

  /** EvalContext, with the standard library calls it cannot do without: number
      parsing, JSON objects and `fmt.Sprint`. */
  datatype Env = Env(
    vars: map<string, Value>,
    nodes: map<string, map<string, Value>>,
    extra: map<string, Value>,
    artifact: Option<string -> Option<string>>,
    num: string -> Option<real>,
    json: string -> Option<map<string, Value>>,
    show: Value -> string)

  predicate Truthy(v: Value) {
    match v
    case VBool(b) => b
    case VNum(f) => f != 0.0
    case VInt(i) => i != 0
    case VStr(s) => s != "" && s != "false"
    case VNil => false
    case _ => true
  }

  function ToFloat(v: Value, env: Env): Option<real> {
    match v
    case VNum(f) => Some(f)
    case VInt(i) => Some(i as real)
    case VInt64(i) => Some(i as real)
    case VBool(b) => Some(if b then 1.0 else 0.0)
    case VStr(s) => env.num(s)
    case _ => None
  }

  /** Numeric when both sides coerce; otherwise textual, for == and != only. */
  predicate Compare(op: string, l: Value, r: Value, env: Env) {
    var lf, rf := ToFloat(l, env), ToFloat(r, env);
    if lf.Some? && rf.Some? && op in {"==", "!=", "<", ">", "<=", ">="} then
      var a, b := lf.value, rf.value;
      if op == "==" then a == b
      else if op == "!=" then a != b
      else if op == "<" then a < b
      else if op == ">" then a > b
      else if op == "<=" then a <= b
      else a >= b
    else if op == "==" then env.show(l) == env.show(r)
    else if op == "!=" then env.show(l) != env.show(r)
    else false
  }

  /** + and -: an error unless both sides coerce to numbers. */
  function Arith(op: string, l: Value, r: Value, env: Env): Option<Value> {
    var lf, rf := ToFloat(l, env), ToFloat(r, env);
    if lf.None? || rf.None? then None
    else if op == "+" then Some(VNum(lf.value + rf.value))
    else Some(VNum(lf.value - rf.value))
  }

  function Lookup(m: map<string, Value>, k: string): Value {
    if k in m then m[k] else VNil
  }

  function DigSegments(v: Value, segs: seq<string>): Value
    decreases |segs|
  {
    if segs == [] then v
    else if v.VMap? then DigSegments(Lookup(v.m, segs[0]), segs[1..])
    else VNil
  }

  function DigPath(m: map<string, Value>, path: string): Value {
    DigSegments(VMap(m), Split(path, '.'))
  }

  function ResolveRef(name: string, env: Env): Value {
    var parts := Split(name, '.');
    if parts[0] == "true" then VBool(true)
    else if parts[0] == "false" then VBool(false)
    else if parts[0] == "vars" then (if |parts| >= 2 then Lookup(env.vars, parts[1]) else VNil)
    else if parts[0] == "nodes" then
      if |parts| >= 4 && parts[2] == "outputs" && parts[1] in env.nodes
      then DigPath(env.nodes[parts[1]], Join(parts[3..], "."))
      else VNil
    else if name in env.extra then env.extra[name]
    else Lookup(env.vars, name)
  }

  /** A numeral that does not parse counts as zero. */
  function Numeral(s: string, env: Env): Value {
    VNum(match env.num(s) case Some(f) => f case None => 0.0)
  }

  function FileName(v: Value): string {
    if v.VStr? then v.s else ""
  }

  /** The artifact named by the only argument of a call, if there is one. */
  function ArtifactOf(args: seq<Value>, env: Env): Option<string> {
    if |args| != 1 || env.artifact.None? then None else env.artifact.value(FileName(args[0]))
  }

  /** The object json(...) loads, if it does load. */
  function JsonOf(args: seq<Value>, env: Env): Option<map<string, Value>> {
    match ArtifactOf(args, env)
    case None => None
    case Some(content) => env.json(content)
  }

  /** A call without a trailing path; an unknown name is an error. */
  function CallValue(name: string, args: seq<Value>, env: Env): Option<Value> {
    if name == "exists" then Some(VBool(ArtifactOf(args, env).Some?))
    else if name == "artifact" then
      Some(VStr(match ArtifactOf(args, env) case Some(c) => c case None => ""))
    else if name == "json" then
      Some(match JsonOf(args, env) case Some(m) => VMap(m) case None => VNil)
    else None
  }
}
