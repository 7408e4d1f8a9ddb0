/**
  The part of the language that the compiler model covers, with its meaning.

  Expressions: constants, locals, assignment, arithmetic, comparison, and/or,
  ?: and in.  Statements: if, switch, the loops, break, continue and return.
  What the primitive operations (OpAdd, strictCompare, Equal, ...) compute is a
  parameter, so every result holds whatever they do, errors included.
  */
module Ast {

  datatype Option<T> = None | Some(value: T)

  datatype Value = Bool(b: bool) | Int(n: int) | Str(s: string) | Other(id: nat)

  /** What a run can panic with. */
  datatype Error = Uninitialized(name: string) | NeedsBool | Failure(msg: string) | Thrown(value: Value)

  datatype Answer<T> = Gives(value: T) | Raises(error: Error)

  datatype ArithOp = Add | Sub | Cat | Mul | Div | Mod | LShift | RShift | BitOr | BitAnd | BitXor

  datatype CompareOp = Is | Isnt | Match | MatchNot | Lt | Lte | Gt | Gte

  datatype UnaryOp = Plus | Minus | Not | BitNot

  /** The primitive operations on values. */
  datatype Prims = Prims(
    arith: (ArithOp, Value, Value) -> Answer<Value>,
    cat: seq<Value> -> Answer<Value>,
    order: (CompareOp, Value, Value) -> Answer<bool>,
    unary: (UnaryOp, Value) -> Answer<Value>,
    equal: (Value, Value) -> bool)
  {
    function Compare(op: CompareOp, x: Value, y: Value): Answer<bool> {
      if op == Is then Gives(equal(x, y))
      else if op == Isnt then Gives(!equal(x, y))
      else order(op, x, y)
    }
  }

  datatype Expr =
    | Const(v: Value)
    | Local(name: string)
    | Paren(e: Expr)
    | Unary(op: UnaryOp, e: Expr)
    | Recip(e: Expr)                                  // the / of a product
    | IncDec(name: string, dec: bool, post: bool)
    | Assign(name: string, e: Expr)
    | AssignOp(aop: ArithOp, name: string, e: Expr)
    | Compare(cop: CompareOp, l: Expr, r: Expr)
    | Binary(aop: ArithOp, l: Expr, r: Expr)
    | Nary(aop: ArithOp, e: Expr, rest: Exprs)
    | Product(e: Expr, rest: Exprs)
    | AndOr(and: bool, e: Expr, rest: Exprs)
    | Cond(c: Expr, l: Expr, r: Expr)
    | In(e: Expr, rest: Exprs)

  datatype Exprs = Nil | Cons(head: Expr, tail: Exprs)

  datatype Stmt =
    | ExprStmt(e: Expr)
    | Block(body: Stmts)
    | Return(e: Expr)
    | ReturnNil
    | If(c: Expr, t: Stmt)
    | IfElse(c: Expr, t: Stmt, f: Stmt)
    | Switch(e: Expr, cases: Cases, default: Option<Stmts>)
    | Forever(b: Stmt)
    | While(c: Expr, b: Stmt)
    | DoWhile(b: Stmt, c: Expr)
    | For(init: Exprs, cond: Option<Expr>, inc: Exprs, b: Stmt)
    | Break
    | Continue

  datatype Stmts = End | Seq(first: Stmt, rest: Stmts)

  datatype Cases = NoCases | Case(e: Expr, more: Exprs, body: Stmts, rest: Cases)

  type Env = map<string, Value>

  // ------------------------------------------------------------ expressions

  datatype Result = Val(v: Value, env: Env) | Err(error: Error, env: Env)

  function Answered(a: Answer<Value>, env: Env): Result {
    match a case Gives(v) => Val(v, env) case Raises(x) => Err(x, env)
  }

  function AnsweredBool(a: Answer<bool>, env: Env): Result {
    match a case Gives(b) => Val(Bool(b), env) case Raises(x) => Err(x, env)
  }

  /** x op= y, where y has been evaluated: the new value of x, or its old one. */
  function Updated(p: Prims, op: ArithOp, name: string, y: Value, orig: bool, env: Env): Result {
    if name !in env then Err(Uninitialized(name), env)
    else match p.arith(op, env[name], y)
      case Raises(x) => Err(x, env)
      case Gives(v) => Val(if orig then env[name] else v, env[name := v])
  }

  predicate Leaf(e: Expr) { e.Const? || e.Local? || e.IncDec? }

  /** One operand and an operation. */
  predicate One(e: Expr) { e.Unary? || e.Assign? || e.AssignOp? }

  /** Two operands and an operation. */
  predicate Two(e: Expr) { e.Compare? || e.Binary? }

  /** An operand and a remainder that may not be evaluated in full. */
  predicate Long(e: Expr) { e.Nary? || e.Product? || e.AndOr? || e.Cond? || e.In? }

  function Operand(e: Expr): (a: Expr)
    requires Long(e)
    ensures a < e
  {
    if e.Cond? then e.c else e.e
  }

  function Eval(p: Prims, e: Expr, env: Env): Result
    decreases e, 1
  {
    if Leaf(e) then EvalLeaf(p, e, env)
    else if e.Paren? then Eval(p, e.e, env)
    else if One(e) then
      var r := Eval(p, e.e, env);
      if r.Err? then r else Apply1(p, e, r.v, r.env)
    else if e.Recip? then
      var r := Eval(p, e.e, env);
      if r.Err? then r else Answered(p.arith(Div, Int(1), r.v), r.env)
    else if Two(e) then
      var r := Eval(p, e.l, env);
      if r.Err? then r
      else
        var r1 := Eval(p, e.r, r.env);
        if r1.Err? then r1 else Apply2(p, e, r.v, r1.v, r1.env)
    else if e.In? && e.rest.Nil? then Val(Bool(false), env)
    else
      var r := Eval(p, Operand(e), env);
      if r.Err? then r else EvalRest(p, e, r.v, r.env)
  }

  function EvalLeaf(p: Prims, e: Expr, env: Env): Result
    requires Leaf(e)
  {
    match e
    case Const(v) => Val(v, env)
    case Local(x) => if x in env then Val(env[x], env) else Err(Uninitialized(x), env)
    case IncDec(x, dec, post) => Updated(p, if dec then Sub else Add, x, Int(1), post, env)
  }

  function Apply1(p: Prims, e: Expr, v: Value, env: Env): Result
    requires One(e)
  {
    match e
    case Unary(op, _) => Answered(p.unary(op, v), env)
    case Assign(x, _) => Val(v, env[x := v])
    case AssignOp(op, x, _) => Updated(p, op, x, v, false, env)
  }

  function Apply2(p: Prims, e: Expr, v: Value, w: Value, env: Env): Result
    requires Two(e)
  {
    match e
    case Compare(op, _, _) => AnsweredBool(p.Compare(op, v, w), env)
    case Binary(op, _, _) => Answered(p.arith(op, v, w), env)
  }

  /** The value of a long expression whose first operand is v. */
  function EvalRest(p: Prims, e: Expr, v: Value, env: Env): Result
    requires Long(e)
    decreases e, 0
  {
    match e
    case Nary(op, _, rest) => if Joins(op, rest) then EvalJoin(p, [v], rest, env) else EvalNary(p, op, v, rest, env)
    case Product(_, rest) => EvalProduct(p, v, rest, env)
    case AndOr(and, _, rest) => EvalAndOr(p, and, v, rest, env)
    case In(_, list) => EvalIn(p, v, list, env)
    case Cond(_, l, r) =>
      if !v.Bool? then Err(NeedsBool, env) else if v.b then Eval(p, l, env) else Eval(p, r, env)
  }

  /** A sum written with - is kept by the parser as a sum with negated terms. */
  predicate Subtracts(op: ArithOp, e: Expr) {
    op == Add && e.Unary? && e.op == Minus
  }

  /** Three or more operands are concatenated all at once. */
  predicate Joins(op: ArithOp, rest: Exprs) {
    op == Cat && rest.Cons? && rest.tail.Cons?
  }

  /** `acc` is the values of the operands so far. */
  function EvalJoin(p: Prims, acc: seq<Value>, rest: Exprs, env: Env): Result
    decreases rest, 0
  {
    match rest
    case Nil => Answered(p.cat(acc), env)
    case Cons(e, tail) =>
      var r := Eval(p, e, env);
      if r.Err? then r else EvalJoin(p, acc + [r.v], tail, r.env)
  }

  /** The value of acc op e. */
  function EvalOnto(p: Prims, e: Expr, op: ArithOp, acc: Value, env: Env): Result
    decreases e, 2
  {
    var r := Eval(p, e, env);
    if r.Err? then r else Answered(p.arith(op, acc, r.v), r.env)
  }

  function EvalNary(p: Prims, op: ArithOp, acc: Value, rest: Exprs, env: Env): Result
    decreases rest, 0
  {
    match rest
    case Nil => Val(acc, env)
    case Cons(e, tail) =>
      var sub := Subtracts(op, e);
      var r := EvalOnto(p, if sub then e.e else e, if sub then Sub else op, acc, env);
      if r.Err? then r else EvalNary(p, op, r.v, tail, r.env)
  }

  /** A product multiplies its factors first and then divides by its divisors. */
  function EvalProduct(p: Prims, acc: Value, rest: Exprs, env: Env): Result
    decreases rest, 1
  {
    var r := EvalFactors(p, acc, rest, env);
    if r.Err? then r else EvalDivisors(p, r.v, None, rest, r.env)
  }

  function EvalFactors(p: Prims, acc: Value, rest: Exprs, env: Env): Result
    decreases rest, 0
  {
    match rest
    case Nil => Val(acc, env)
    case Cons(e, tail) =>
      if e.Recip? then EvalFactors(p, acc, tail, env)
      else
        var r := EvalOnto(p, e, Mul, acc, env);
        if r.Err? then r else EvalFactors(p, r.v, tail, r.env)
  }

  /** `divisor` is the product of the divisors so far. */
  function EvalDivisors(p: Prims, acc: Value, divisor: Option<Value>, rest: Exprs, env: Env): Result
    decreases rest, 0
  {
    match rest
    case Nil => if divisor.None? then Val(acc, env) else Answered(p.arith(Div, acc, divisor.value), env)
    case Cons(e, tail) =>
      if !e.Recip? then EvalDivisors(p, acc, divisor, tail, env)
      else
        var r := if divisor.None? then Eval(p, e.e, env) else EvalOnto(p, e.e, Mul, divisor.value, env);
        if r.Err? then r else EvalDivisors(p, acc, Some(r.v), tail, r.env)
  }

  /** Every operand that is evaluated must be a boolean, the last one too. */
  function EvalAndOr(p: Prims, and: bool, acc: Value, rest: Exprs, env: Env): Result
    decreases rest, 0
  {
    if !acc.Bool? then Err(NeedsBool, env)
    else if rest.Nil? || acc.b != and then Val(acc, env)
    else
      var r := Eval(p, rest.head, env);
      if r.Err? then r else EvalAndOr(p, and, r.v, rest.tail, r.env)
  }

  function EvalIn(p: Prims, x: Value, list: Exprs, env: Env): Result
    decreases list, 0
  {
    match list
    case Nil => Val(Bool(false), env)
    case Cons(e, tail) =>
      var r := Eval(p, e, env);
      if r.Err? then r else if p.equal(x, r.v) then Val(Bool(true), r.env) else EvalIn(p, x, tail, r.env)
  }

  /** Expressions evaluated for their effect. */
  function EvalList(p: Prims, list: Exprs, env: Env): Result
    decreases list, 0
  {
    match list
    case Nil => Val(Bool(true), env)
    case Cons(e, tail) =>
      var r := Eval(p, e, env);
      if r.Err? then r else EvalList(p, tail, r.env)
  }

  // ------------------------------------------------------------- statements

  datatype Outcome =
    | Next(env: Env) | Broke(env: Env) | Continued(env: Env)
    | Returned(result: Option<Value>, env: Env)
    | Raised(error: Error, env: Env)
    | OutOfFuel

  /** The body of the first case with an equal expression, or the default. */
  datatype Choice = Chosen(body: Stmts, env: Env) | Defaulted(env: Env) | Failed(error: Error, env: Env)

  function Matches(p: Prims, x: Value, e: Expr, more: Exprs, env: Env): (r: Result)
    ensures r.Val? ==> r.v.Bool?
    decreases more
  {
    var r := Eval(p, e, env);
    if r.Err? then r
    else if p.equal(x, r.v) then Val(Bool(true), r.env)
    else if more.Nil? then Val(Bool(false), r.env)
    else Matches(p, x, more.head, more.tail, r.env)
  }

  function Choose(p: Prims, x: Value, cases: Cases, env: Env): (r: Choice)
    ensures r.Chosen? ==> cases.Case? && r.body < cases
    decreases cases
  {
    match cases
    case NoCases => Defaulted(env)
    case Case(e, more, body, rest) =>
      match Matches(p, x, e, more, env)
      case Err(err, env1) => Failed(err, env1)
      case Val(b, env1) => if b.b then Chosen(body, env1) else Choose(p, x, rest, env1)
  }

  const Unhandled: Value := Str("unhandled switch value")

  /** `fuel` bounds how many times each loop may go around again. */
  function Exec(p: Prims, s: Stmt, env: Env, fuel: nat): Outcome
    decreases fuel, s, 1
  {
    match s
    case ExprStmt(e) =>
      var r := Eval(p, e, env);
      if r.Err? then Raised(r.error, r.env) else Next(r.env)
    case Block(body) => ExecAll(p, body, env, fuel)
    case Return(e) =>
      var r := Eval(p, e, env);
      if r.Err? then Raised(r.error, r.env) else Returned(Some(r.v), r.env)
    case ReturnNil => Returned(None, env)
    case If(c, t) =>
      var r := Test(p, Some(c), env);
      if r.Err? then Raised(r.error, r.env)
      else if r.v.b then Exec(p, t, r.env, fuel) else Next(r.env)
    case IfElse(c, t, f) =>
      var r := Test(p, Some(c), env);
      if r.Err? then Raised(r.error, r.env)
      else if r.v.b then Exec(p, t, r.env, fuel) else Exec(p, f, r.env, fuel)
    case Switch(e, cases, default) =>
      var r := Eval(p, e, env);
      if r.Err? then Raised(r.error, r.env)
      else Picked(p, r.v, s, r.env, fuel)
    case Break => Broke(env)
    case Continue => Continued(env)
    case _ => ExecLoop(p, s, env, fuel)
  }

  /** A switch on the value x. */
  function Picked(p: Prims, x: Value, s: Stmt, env: Env, fuel: nat): Outcome
    requires s.Switch?
    decreases fuel, s, 0
  {
    match Choose(p, x, s.cases, env)
    case Failed(err, env1) => Raised(err, env1)
    case Chosen(body, env1) => ExecAll(p, body, env1, fuel)
    case Defaulted(env1) => Defaults(p, s.default, env1, fuel)
  }

  function Defaults(p: Prims, default: Option<Stmts>, env: Env, fuel: nat): Outcome
    decreases fuel, default, 1
  {
    if default.None? then Raised(Thrown(Unhandled), env) else ExecAll(p, default.value, env, fuel)
  }

  predicate IsLoop(s: Stmt) { s.Forever? || s.DoWhile? || s.While? || s.For? }

  function ExecLoop(p: Prims, s: Stmt, env: Env, fuel: nat): Outcome
    requires IsLoop(s)
    decreases fuel, s, 0
  {
    match s
    case Forever(b) => Rounds(p, None, Nil, b, env, fuel)
    case DoWhile(b, c) => Rounds(p, Some(c), Nil, b, env, fuel)
    case While(c, b) => Tested(p, Some(c), Nil, b, env, fuel)
    case For(init, cond, inc, b) =>
      var r := EvalList(p, init, env);
      if r.Err? then Raised(r.error, r.env) else Tested(p, cond, inc, b, r.env, fuel)
  }

  function ExecAll(p: Prims, ss: Stmts, env: Env, fuel: nat): Outcome
    decreases fuel, ss, 0
  {
    match ss
    case End => Next(env)
    case Seq(s, rest) =>
      var r := Exec(p, s, env, fuel);
      if r.Next? then ExecAll(p, rest, r.env, fuel) else r
  }

  /** The condition of a loop; none is always true. */
  function Test(p: Prims, cond: Option<Expr>, env: Env): (r: Result)
    ensures r.Val? ==> r.v.Bool?
  {
    if cond.None? then Val(Bool(true), env)
    else
      var r := Eval(p, cond.value, env);
      if r.Val? && !r.v.Bool? then Err(NeedsBool, r.env) else r
  }

  /** From the top of a loop's body: body, increment, test, and around again. */
  function Rounds(p: Prims, cond: Option<Expr>, inc: Exprs, b: Stmt, env: Env, fuel: nat): Outcome
    decreases fuel, b, 2
  {
    var o := Exec(p, b, env, fuel);
    if o.Broke? then Next(o.env)
    else if !o.Next? && !o.Continued? then o
    else
      var r := EvalList(p, inc, o.env);
      if r.Err? then Raised(r.error, r.env)
      else
        var t := Test(p, cond, r.env);
        if t.Err? then Raised(t.error, t.env)
        else if !t.v.b then Next(t.env)
        else if fuel == 0 then OutOfFuel
        else Rounds(p, cond, inc, b, t.env, fuel - 1)
  }

  /** A loop that tests before its first round. */
  function Tested(p: Prims, cond: Option<Expr>, inc: Exprs, b: Stmt, env: Env, fuel: nat): Outcome
    decreases fuel, b, 3
  {
    var t := Test(p, cond, env);
    if t.Err? then Raised(t.error, t.env)
    else if !t.v.b then Next(t.env)
    else Rounds(p, cond, inc, b, t.env, fuel)
  }

  /**
    A function body.  The value of a final expression statement or return is
    the result; a body that ends otherwise returns nothing.
    */
  function Call(p: Prims, body: Stmts, env: Env, fuel: nat): Outcome
    decreases body
  {
    match body
    case End => Returned(None, env)
    case Seq(s, rest) =>
      if rest.End? && s.ExprStmt? then Exec(p, Return(s.e), env, fuel)
      else
        var r := Exec(p, s, env, fuel);
        if r.Next? then Call(p, rest, r.env, fuel) else r
  }
}
