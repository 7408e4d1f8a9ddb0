/**
  The stack machine's instructions, one per opcode of the unfused set, with the
  operands spelled out: names instead of slots, values instead of indexes, and
  the index of the target instruction instead of a byte offset.
  The Size functions count the instructions of each construct.
  */
module Ops {
  import opened Ast

  datatype Op =
    | Push(v: Value) | Pop
    | Load(name: string) | Store(name: string) | LoadStore(name: string, aop: ArithOp, orig: bool)
    | Unary1(uop: UnaryOp) | CatN(n: nat) | Arith(aop: ArithOp) | Compare2(cop: CompareOp) | Bool1
    | Jump(to: int) | JumpTrue(to: int) | JumpFalse(to: int)
    | And(to: int) | Or(to: int) | QMark(to: int) | InJump(to: int)
    | JumpIs(to: int) | JumpIsnt(to: int)
    | Ret | RetNil | Throw

  predicate IsJump(op: Op) {
    op.Jump? || op.JumpTrue? || op.JumpFalse? || op.And? || op.Or? || op.QMark? || op.InJump?
    || op.JumpIs? || op.JumpIsnt?
  }

  // ---------------------------------------------------------------- running

  datatype State =
    | At(pc: int, stack: seq<Value>, env: Env)
    | Done(result: Option<Value>, env: Env)
    | Panic(error: Error, env: Env)
    | Stuck

  function Top(stack: seq<Value>): Value
    requires stack != []
  {
    stack[|stack| - 1]
  }

  function Rest(stack: seq<Value>): seq<Value>
    requires stack != []
  {
    stack[..|stack| - 1]
  }

  /** How many values an instruction takes from the stack. */
  function Needs(op: Op): nat {
    match op
    case Push(_) | Load(_) | Jump(_) | Ret | RetNil => 0
    case Arith(_) | Compare2(_) | InJump(_) | JumpIs(_) | JumpIsnt(_) => 2
    case CatN(n) => n
    case _ => 1
  }

  function Pushed(r: Result, pc: int, stack: seq<Value>): State {
    match r case Val(v, env) => At(pc, stack + [v], env) case Err(x, env) => Panic(x, env)
  }

  /** A two-way jump on a boolean. */
  function Branch(v: Value, on: bool, to: int, pc: int, taken: seq<Value>, fall: seq<Value>, env: Env): State {
    if !v.Bool? then Panic(NeedsBool, env)
    else if v.b == on then At(to, taken, env)
    else At(pc + 1, fall, env)
  }

  /** The result of a finished function is what is on top of its stack, if anything. */
  function Finish(stack: seq<Value>, env: Env): State {
    Done(if stack == [] then None else Some(Top(stack)), env)
  }

  function Do(p: Prims, op: Op, pc: int, stack: seq<Value>, env: Env): State
    requires Needs(op) <= |stack|
  {
    match op
    case Push(v) => At(pc + 1, stack + [v], env)
    case Pop => At(pc + 1, Rest(stack), env)
    case Load(x) => if x in env then At(pc + 1, stack + [env[x]], env) else Panic(Uninitialized(x), env)
    case Store(x) => At(pc + 1, stack, env[x := Top(stack)])
    case LoadStore(x, aop, orig) => Pushed(Updated(p, aop, x, Top(stack), orig, env), pc + 1, Rest(stack))
    case Unary1(uop) => Pushed(Answered(p.unary(uop, Top(stack)), env), pc + 1, Rest(stack))
    case Arith(aop) =>
      Pushed(Answered(p.arith(aop, Top(Rest(stack)), Top(stack)), env), pc + 1, Rest(Rest(stack)))
    case CatN(n) => Pushed(Answered(p.cat(stack[|stack| - n..]), env), pc + 1, stack[..|stack| - n])
    case Compare2(cop) =>
      Pushed(AnsweredBool(p.Compare(cop, Top(Rest(stack)), Top(stack)), env), pc + 1, Rest(Rest(stack)))
    case Bool1 => if Top(stack).Bool? then At(pc + 1, stack, env) else Panic(NeedsBool, env)
    case Jump(to) => At(to, stack, env)
    case JumpTrue(to) => Branch(Top(stack), true, to, pc, Rest(stack), Rest(stack), env)
    case JumpFalse(to) => Branch(Top(stack), false, to, pc, Rest(stack), Rest(stack), env)
    case QMark(to) => Branch(Top(stack), false, to, pc, Rest(stack), Rest(stack), env)
    case And(to) => Branch(Top(stack), false, to, pc, stack, Rest(stack), env)
    case Or(to) => Branch(Top(stack), true, to, pc, stack, Rest(stack), env)
    case InJump(to) =>
      if p.equal(Top(Rest(stack)), Top(stack)) then At(to, Rest(Rest(stack)) + [Bool(true)], env)
      else At(pc + 1, Rest(stack), env)
    case JumpIs(to) =>
      if p.equal(Top(Rest(stack)), Top(stack)) then At(to, Rest(Rest(stack)), env)
      else At(pc + 1, Rest(stack), env)
    case JumpIsnt(to) =>
      if p.equal(Top(Rest(stack)), Top(stack)) then At(pc + 1, Rest(Rest(stack)), env)
      else At(to, Rest(stack), env)
    case Ret => Finish(stack, env)
    case RetNil => Done(None, env)
    case Throw => Panic(Thrown(Top(stack)), env)
  }

  function Step(p: Prims, m: seq<Op>, s: State): State {
    match s
    case At(pc, stack, env) =>
      if pc < 0 || pc > |m| then Stuck
      else if pc == |m| then Finish(stack, env)
      else if |stack| < Needs(m[pc]) then Stuck
      else Do(p, m[pc], pc, stack, env)
    case _ => s
  }

  function Run(p: Prims, m: seq<Op>, s: State, n: nat): State
    decreases n
  {
    if n == 0 then s else Run(p, m, Step(p, m, s), n - 1)
  }

  // -------------------------------------------------------------- expressions

  function SizeE(e: Expr): nat
    decreases e, 1
  {
    match e
    case Const(_) | Local(_) => 1
    case Paren(a) => SizeE(a)
    case Unary(_, a) => SizeE(a) + 1
    case Recip(a) => SizeE(a) + 2
    case IncDec(_, _, _) => 2
    case Assign(_, a) => SizeE(a) + 1
    case AssignOp(_, _, a) => SizeE(a) + 1
    case Compare(_, l, r) => SizeE(l) + SizeE(r) + 1
    case Binary(_, l, r) => SizeE(l) + SizeE(r) + 1
    case In(_, Nil) => 1
    case _ => SizeE(Operand(e)) + SizeRest(e)
  }

  /** The instructions after the first operand of a long expression. */
  function SizeRest(e: Expr): nat
    requires Long(e)
    decreases e, 0
  {
    match e
    case Nary(op, _, rest) => if Joins(op, rest) then SizeJoin(rest) else SizeNary(op, rest)
    case Product(_, rest) => SizeProduct(rest)
    case AndOr(_, a, rest) => SizeAndOr(a, rest)
    case Cond(_, l, r) => 1 + SizeE(l) + 1 + SizeE(r)
    case In(_, list) => SizeIn(list)
  }

  lemma LongSize(e: Expr)
    requires Long(e) && !(e.In? && e.rest.Nil?)
    ensures SizeE(e) == SizeE(Operand(e)) + SizeRest(e)
    ensures e.AndOr? ==> SizeRest(e) == SizeAndOr(e.e, e.rest)
    ensures e.In? ==> SizeRest(e) == SizeIn(e.rest)
    ensures e.Product? ==> SizeRest(e) == SizeProduct(e.rest)
    ensures e.Nary? ==> SizeRest(e) == if Joins(e.aop, e.rest) then SizeJoin(e.rest) else SizeNary(e.aop, e.rest)
    ensures e.Cond? ==> SizeRest(e) == 2 + SizeE(e.l) + SizeE(e.r)
  {
  }

  function SizeNary(op: ArithOp, rest: Exprs): nat
    decreases rest, 0
  {
    match rest
    case Nil => 0
    case Cons(e, tail) => SizeE(if Subtracts(op, e) then e.e else e) + 1 + SizeNary(op, tail)
  }

  /** The operands, and the instruction that concatenates them. */
  function SizeJoin(rest: Exprs): nat
    decreases rest, 0
  {
    match rest case Nil => 1 case Cons(e, tail) => SizeE(e) + SizeJoin(tail)
  }

  function SizeProduct(rest: Exprs): nat
    decreases rest, 1
  {
    SizeFactors(rest) + SizeDivisors(rest, false)
  }

  function SizeFactors(rest: Exprs): nat
    decreases rest, 0
  {
    match rest
    case Nil => 0
    case Cons(e, tail) => (if e.Recip? then 0 else SizeE(e) + 1) + SizeFactors(tail)
  }

  function SizeDivisors(rest: Exprs, begun: bool): nat
    decreases rest, 0
  {
    match rest
    case Nil => if begun then 1 else 0
    case Cons(e, tail) =>
      if e.Recip? then SizeE(e.e) + (if begun then 1 else 0) + SizeDivisors(tail, true)
      else SizeDivisors(tail, begun)
  }

  /** A comparison always leaves a boolean, so it needs no check. */
  predicate Checks(last: Expr) { !last.Compare? }

  function SizeAndOr(prev: Expr, rest: Exprs): nat
    decreases rest, 0
  {
    match rest
    case Nil => if Checks(prev) then 1 else 0
    case Cons(e, tail) => 1 + SizeE(e) + SizeAndOr(e, tail)
  }

  function SizeIn(list: Exprs): nat
    decreases list, 0
  {
    match list
    case Nil => 0
    case Cons(e, tail) => SizeE(e) + 1 + SizeIn(tail)
  }

  function CodeLeaf(e: Expr): seq<Op>
    requires Leaf(e)
  {
    match e
    case Const(v) => [Push(v)]
    case Local(x) => [Load(x)]
    case IncDec(x, dec, post) => [Push(Int(1)), LoadStore(x, if dec then Sub else Add, post)]
  }

  function Op1(e: Expr): Op
    requires One(e)
  {
    match e
    case Unary(op, _) => Unary1(op)
    case Assign(x, _) => Store(x)
    case AssignOp(op, x, _) => LoadStore(x, op, false)
  }

  function Op2(e: Expr): Op
    requires Two(e)
  {
    match e case Compare(op, _, _) => Compare2(op) case Binary(op, _, _) => Arith(op)
  }

  function SizeList(list: Exprs): nat {
    match list case Nil => 0 case Cons(e, tail) => SizeE(e) + 1 + SizeList(tail)
  }

  // --------------------------------------------------------------- statements

  function SizeS(s: Stmt): nat
    decreases s
  {
    match s
    case ExprStmt(e) => if e.Const? then 0 else SizeE(e) + 1
    case Block(body) => SizeSS(body)
    case Return(e) => SizeE(e) + 1
    case ReturnNil => 1
    case If(c, t) => SizeE(c) + 1 + SizeS(t)
    case IfElse(c, t, f) => SizeE(c) + 1 + SizeS(t) + 1 + SizeS(f)
    case Switch(e, cases, default) =>
      SizeE(e) + SizeCases(cases) + SizeDefault(default)
    case Forever(b) => SizeS(b) + 1
    case While(c, b) => 1 + SizeS(b) + SizeE(c) + 1
    case DoWhile(b, c) => SizeS(b) + SizeE(c) + 1
    case For(init, cond, inc, b) =>
      SizeList(init) + (if cond.None? then 0 else 1) + SizeS(b) + SizeList(inc) + SizeTest(cond)
    case Break => 1
    case Continue => 1
  }

  function SizeDefault(default: Option<Stmts>): nat
    decreases default, 1
  {
    1 + (if default.None? then 2 else SizeSS(default.value))
  }

  function SizeTest(cond: Option<Expr>): nat {
    if cond.None? then 1 else SizeE(cond.value) + 1
  }

  function SizeSS(ss: Stmts): nat
    decreases ss
  {
    match ss case End => 0 case Seq(s, rest) => SizeS(s) + SizeSS(rest)
  }

  function SizeTests(e: Expr, more: Exprs): nat
    decreases more
  {
    SizeE(e) + 1 + (match more case Nil => 0 case Cons(e2, tail) => SizeTests(e2, tail))
  }

  function SizeCases(cases: Cases): nat
    decreases cases
  {
    match cases
    case NoCases => 0
    case Case(e, more, body, rest) => SizeTests(e, more) + SizeSS(body) + 1 + SizeCases(rest)
  }

  /**
    Where continue goes: back to a place already passed, or forward to a place
    to come, in which case the second continue jumps to the first one.
    */
  datatype Cont = Back(to: int) | Fwd(to: int, first: Option<int>)

  datatype Labels = NoLoop | Loop(brk: int, cont: Cont)

  /** The first continue of the enclosing loop in the code of s at i. */
  function FirstS(s: Stmt, i: int): Option<int>
    decreases s
  {
    match s
    case Continue => Some(i)
    case Block(body) => FirstSS(body, i)
    case If(c, t) => FirstS(t, i + SizeE(c) + 1)
    case IfElse(c, t, f) =>
      var j := i + SizeE(c) + 1;
      Or1(FirstS(t, j), FirstS(f, j + SizeS(t) + 1))
    case Switch(e, cases, default) =>
      var j := i + SizeE(e);
      Or1(FirstCases(cases, j), FirstDefault(default, j + SizeCases(cases)))
    case _ => None
  }

  function Or1(a: Option<int>, b: Option<int>): Option<int> { if a.Some? then a else b }

  function FirstSS(ss: Stmts, i: int): Option<int>
    decreases ss
  {
    match ss case End => None case Seq(s, rest) => Or1(FirstS(s, i), FirstSS(rest, i + SizeS(s)))
  }

  function FirstDefault(default: Option<Stmts>, i: int): Option<int>
    decreases default, 1
  {
    if default.None? then None else FirstSS(default.value, i + 1)
  }

  function FirstCases(cases: Cases, i: int): Option<int>
    decreases cases
  {
    match cases
    case NoCases => None
    case Case(e, more, body, rest) =>
      var j := i + SizeTests(e, more);
      Or1(FirstSS(body, j), FirstCases(rest, j + SizeSS(body) + 1))
  }

  /** The labels once a first continue may have been compiled. */
  function Seen(l: Labels, first: Option<int>): Labels {
    if l.Loop? && l.cont.Fwd? then l.(cont := l.cont.(first := Or1(l.cont.first, first))) else l
  }

  /** The instruction that a continue is to jump to. */
  function ContLabel(l: Labels): int {
    if l.NoLoop? then 0
    else if l.cont.Fwd? && l.cont.first.Some? then l.cont.first.value
    else l.cont.to
  }

  /** The target of a jump that goes astray. */
  const Nowhere: int := -1

  /**
    The instruction that a continue at i does jump to.  If it is the very instruction
    that it should go back to, the compiler takes the label for none and the jump goes
    astray.
    */
  function ContTarget(l: Labels, i: int): int {
    if l.Loop? && l.cont == Back(i) then Nowhere else ContLabel(l)
  }
}
