/**
  The code of an expression computes its value: from any stack and any locals it
  runs to the instruction after it with the value pushed, or panics as the
  expression does.
  */
module SimExpr {
  import opened Ast
  import opened Ops
  import opened LayoutExpr
  import opened Seal

  // ------------------------------------------------------------------- running

  ghost predicate Linked(p: Prims, m: seq<Op>, tr: seq<State>, j: nat) {
    j + 1 < |tr| && tr[j + 1] == Step(p, m, tr[j])
  }

  ghost predicate Trace(p: Prims, m: seq<Op>, tr: seq<State>) {
    tr != [] && forall j: nat :: j < |tr| - 1 ==> Linked(p, m, tr, j)
  }

  /** The machine gets from s to t in n or more instructions. */
  ghost predicate Reaches(p: Prims, m: seq<Op>, s: State, n: nat, t: State) {
    var sealed := forall u: int {:trigger Open(u)} :: Open(u) ==> Path(p, m, s, n, t);
    sealed
  }

  ghost predicate Path(p: Prims, m: seq<Op>, s: State, n: nat, t: State) {
    exists tr :: Trace(p, m, tr) && |tr| > n && tr[0] == s && tr[|tr| - 1] == t
  }

  lemma Stays(p: Prims, m: seq<Op>, s: State)
    ensures Reaches(p, m, s, 0, s)
  {
    assert Trace(p, m, [s]);
  }

  lemma Fewer(p: Prims, m: seq<Op>, s: State, a: nat, t: State, b: nat)
    requires Reaches(p, m, s, a, t) && b <= a
    ensures Reaches(p, m, s, b, t)
  {
    assert Open(0);
  }

  lemma RunOn(p: Prims, m: seq<Op>, s: State, a: nat, s1: State, b: nat, s2: State)
    requires Reaches(p, m, s, a, s1) && Reaches(p, m, s1, b, s2)
    ensures Reaches(p, m, s, a + b, s2)
  {
    assert Open(0);
    assert Path(p, m, s, a, s1) && Path(p, m, s1, b, s2);
    var x: seq<State> :| Trace(p, m, x) && |x| > a && x[0] == s && x[|x| - 1] == s1;
    var y: seq<State> :| Trace(p, m, y) && |y| > b && y[0] == s1 && y[|y| - 1] == s2;
    var z := x + y[1..];
    forall j: nat | j < |z| - 1 ensures Linked(p, m, z, j) {
      if j < |x| - 1 {
        assert Linked(p, m, x, j);
      } else {
        assert Linked(p, m, y, j - (|x| - 1));
      }
    }
    assert Trace(p, m, z);
  }

  /** One instruction. */
  lemma RunOne(p: Prims, m: seq<Op>, i: int, stk: seq<Value>, env: Env, op: Op)
    requires OpAt(m, i, op) && Needs(op) <= |stk|
    ensures Reaches(p, m, At(i, stk, env), 1, Do(p, op, i, stk, env))
  {
    var tr := [At(i, stk, env), Do(p, op, i, stk, env)];
    assert Linked(p, m, tr, 0);
    assert Trace(p, m, tr);
  }

  lemma RunOneMore(p: Prims, m: seq<Op>, s: State, i: int, stk: seq<Value>, env: Env, op: Op)
    requires Reaches(p, m, s, 0, At(i, stk, env))
    requires OpAt(m, i, op) && Needs(op) <= |stk|
    ensures Reaches(p, m, s, 1, Do(p, op, i, stk, env))
  {
    RunOne(p, m, i, stk, env, op);
    RunOn(p, m, s, 0, At(i, stk, env), 1, Do(p, op, i, stk, env));
  }

  lemma StackTop(stack: seq<Value>, v: Value)
    ensures |stack + [v]| == |stack| + 1
    ensures Top(stack + [v]) == v && Rest(stack + [v]) == stack
  {
  }

  lemma StackTop2(stack: seq<Value>, v: Value, w: Value)
    ensures |stack + [v] + [w]| == |stack| + 2
    ensures Top(stack + [v] + [w]) == w && Rest(stack + [v] + [w]) == stack + [v]
    ensures Top(stack + [v]) == v && Rest(stack + [v]) == stack
  {
    StackTop(stack + [v], w);
    StackTop(stack, v);
  }

  /** What an instruction makes of a value on top of the stack. */
  function Then1(p: Prims, op: Op, r: Result, i: int, stk: seq<Value>): State
    requires Needs(op) <= |stk| + 1
  {
    if r.Err? then Panic(r.error, r.env) else Do(p, op, i, stk + [r.v], r.env)
  }

  /** A computed value and the instruction that uses it. */
  lemma RunValue(p: Prims, m: seq<Op>, s: State, r: Result, i: int, stk: seq<Value>, op: Op)
    requires Reaches(p, m, s, 0, Pushed(r, i, stk))
    requires OpAt(m, i, op) && Needs(op) <= |stk| + 1
    ensures Reaches(p, m, s, 0, Then1(p, op, r, i, stk))
  {
    if r.Val? {
      RunOneMore(p, m, s, i, stk + [r.v], r.env, op);
      Fewer(p, m, s, 1, Do(p, op, i, stk + [r.v], r.env), 0);
    }
  }

  /** A jump or a push, and the run that goes on from it. */
  lemma RunAfter(p: Prims, m: seq<Op>, s: State, s1: State, t: State)
    requires Reaches(p, m, s, 1, s1) && Reaches(p, m, s1, 0, t)
    ensures Reaches(p, m, s, 0, t)
  {
    RunOn(p, m, s, 1, s1, 0, t);
    Fewer(p, m, s, 1, t, 0);
  }

  lemma StepArith(p: Prims, m: seq<Op>, s: State, op: ArithOp, v: Value, r: Result, i: int, stk: seq<Value>)
    requires OpAt(m, i, Arith(op))
    requires Reaches(p, m, s, 0, Pushed(r, i, stk + [v]))
    ensures Reaches(p, m, s, 0, Pushed(if r.Err? then r else Answered(p.arith(op, v, r.v), r.env), i + 1, stk))
  {
    if r.Val? { StackTop2(stk, v, r.v); }
    RunValue(p, m, s, r, i, stk + [v], Arith(op));
  }

  // ------------------------------------------------------------------- results

  // What an expression evaluates to, sealed: the proofs about code need the result and
  // how it follows from the results of the parts, not the evaluator.

  ghost predicate GivesE(p: Prims, e: Expr, env: Env, r: Result) {
    var sealed := forall u: int {:trigger Look(u)} :: Look(u) ==> r == Eval(p, e, env);
    sealed
  }

  ghost predicate GivesRest(p: Prims, e: Expr, v: Value, env: Env, r: Result)
    requires Long(e)
  {
    var sealed := forall u: int {:trigger Look(u)} :: Look(u) ==> r == EvalRest(p, e, v, env);
    sealed
  }

  ghost predicate GivesNary(p: Prims, op: ArithOp, v: Value, rest: Exprs, env: Env, r: Result) {
    var sealed := forall u: int {:trigger Look(u)} :: Look(u) ==> r == EvalNary(p, op, v, rest, env);
    sealed
  }

  ghost predicate GivesJoin(p: Prims, acc: seq<Value>, rest: Exprs, env: Env, r: Result) {
    var sealed := forall u: int {:trigger Look(u)} :: Look(u) ==> r == EvalJoin(p, acc, rest, env);
    sealed
  }

  ghost predicate GivesFactors(p: Prims, v: Value, rest: Exprs, env: Env, r: Result) {
    var sealed := forall u: int {:trigger Look(u)} :: Look(u) ==> r == EvalFactors(p, v, rest, env);
    sealed
  }

  ghost predicate GivesDivisors(p: Prims, v: Value, d: Option<Value>, rest: Exprs, env: Env, r: Result) {
    var sealed := forall u: int {:trigger Look(u)} :: Look(u) ==> r == EvalDivisors(p, v, d, rest, env);
    sealed
  }

  ghost predicate GivesAndOr(p: Prims, and: bool, v: Value, rest: Exprs, env: Env, r: Result) {
    var sealed := forall u: int {:trigger Look(u)} :: Look(u) ==> r == EvalAndOr(p, and, v, rest, env);
    sealed
  }

  ghost predicate GivesIn(p: Prims, v: Value, list: Exprs, env: Env, r: Result) {
    var sealed := forall u: int {:trigger Look(u)} :: Look(u) ==> r == EvalIn(p, v, list, env);
    sealed
  }

  ghost predicate GivesList(p: Prims, list: Exprs, env: Env, r: Result) {
    var sealed := forall u: int {:trigger Look(u)} :: Look(u) ==> r == EvalList(p, list, env);
    sealed
  }

  /** The result of an operation on v and a computed value. */
  function Onto(p: Prims, op: ArithOp, v: Value, r: Result): Result {
    if r.Err? then r else Answered(p.arith(op, v, r.v), r.env)
  }

  /** The results of the parts. */

  lemma GivesPart(p: Prims, e: Expr, env: Env, r: Result) returns (a: Result)
    requires GivesE(p, e, env, r) && (e.Paren? || One(e) || e.Recip?)
    ensures GivesE(p, e.e, env, a)
    ensures e.Paren? ==> r == a
    ensures One(e) ==> r == if a.Err? then a else Apply1(p, e, a.v, a.env)
    ensures e.Recip? ==> r == Onto(p, Div, Int(1), a)
  {
    assert Look(0);
    a := Eval(p, e.e, env);
  }

  lemma GivesLeaf(p: Prims, e: Expr, env: Env, r: Result)
    requires GivesE(p, e, env, r)
    ensures Leaf(e) ==> r == EvalLeaf(p, e, env)
    ensures e.In? && e.rest.Nil? ==> r == Val(Bool(false), env)
  {
    assert Look(0);
  }

  lemma GivesTwo(p: Prims, e: Expr, env: Env, r: Result) returns (a: Result, b: Result)
    requires GivesE(p, e, env, r) && Two(e)
    ensures GivesE(p, e.l, env, a) && (a.Err? ==> r == a)
    ensures a.Val? ==> GivesE(p, e.r, a.env, b) && r == if b.Err? then b else Apply2(p, e, a.v, b.v, b.env)
  {
    assert Look(0);
    a := Eval(p, e.l, env);
    b := if a.Err? then a else Eval(p, e.r, a.env);
  }

  lemma GivesLong(p: Prims, e: Expr, env: Env, r: Result) returns (a: Result)
    requires GivesE(p, e, env, r) && Long(e) && !(e.In? && e.rest.Nil?)
    ensures GivesE(p, Operand(e), env, a) && (a.Err? ==> r == a)
    ensures a.Val? ==> GivesRest(p, e, a.v, a.env, r)
    ensures Operand(e).Compare? && a.Val? ==> a.v.Bool?
  {
    assert Look(0);
    a := Eval(p, Operand(e), env);
  }

  lemma GivesKind(p: Prims, e: Expr, v: Value, env: Env, r: Result)
    requires Long(e) && GivesRest(p, e, v, env, r)
    ensures e.Nary? && Joins(e.aop, e.rest) ==> GivesJoin(p, [v], e.rest, env, r)
    ensures e.Nary? && !Joins(e.aop, e.rest) ==> GivesNary(p, e.aop, v, e.rest, env, r)
    ensures e.AndOr? ==> GivesAndOr(p, e.and, v, e.rest, env, r)
    ensures e.In? ==> GivesIn(p, v, e.rest, env, r)
  {
    assert Look(0);
  }

  lemma GivesProduct(p: Prims, e: Expr, v: Value, env: Env, r: Result) returns (a: Result)
    requires e.Product? && GivesRest(p, e, v, env, r)
    ensures GivesFactors(p, v, e.rest, env, a) && (a.Err? ==> r == a)
    ensures a.Val? ==> GivesDivisors(p, a.v, None, e.rest, a.env, r)
  {
    assert Look(0);
    a := EvalFactors(p, v, e.rest, env);
    assert r == EvalProduct(p, v, e.rest, env);
  }

  lemma GivesArm(p: Prims, e: Expr, v: Value, env: Env, r: Result)
    requires e.Cond? && GivesRest(p, e, v, env, r)
    ensures !v.Bool? ==> r == Err(NeedsBool, env)
    ensures v.Bool? ==> GivesE(p, if v.b then e.l else e.r, env, r)
  {
    assert Look(0);
  }

  lemma GivesTerm(p: Prims, op: ArithOp, v: Value, rest: Exprs, env: Env, r: Result) returns (a: Result)
    requires rest.Cons? && GivesNary(p, op, v, rest, env, r)
    ensures var sub := Subtracts(op, rest.head);
            var b := Onto(p, if sub then Sub else op, v, a);
            GivesE(p, if sub then rest.head.e else rest.head, env, a) && (b.Err? ==> r == b)
            && (b.Val? ==> GivesNary(p, op, b.v, rest.tail, b.env, r))
  {
    assert Look(0);
    var sub := Subtracts(op, rest.head);
    var e := if sub then rest.head.e else rest.head;
    a := Eval(p, e, env);
    assert EvalOnto(p, e, if sub then Sub else op, v, env) == Onto(p, if sub then Sub else op, v, a);
  }

  lemma GivesNext(p: Prims, acc: seq<Value>, rest: Exprs, env: Env, r: Result) returns (a: Result)
    requires rest.Cons? && GivesJoin(p, acc, rest, env, r)
    ensures GivesE(p, rest.head, env, a) && (a.Err? ==> r == a)
    ensures a.Val? ==> GivesJoin(p, acc + [a.v], rest.tail, a.env, r)
  {
    assert Look(0);
    a := Eval(p, rest.head, env);
  }

  lemma GivesFactor(p: Prims, v: Value, rest: Exprs, env: Env, r: Result) returns (a: Result)
    requires rest.Cons? && GivesFactors(p, v, rest, env, r)
    ensures rest.head.Recip? ==> GivesFactors(p, v, rest.tail, env, r)
    ensures !rest.head.Recip? ==>
      var b := Onto(p, Mul, v, a);
      GivesE(p, rest.head, env, a) && (b.Err? ==> r == b) && (b.Val? ==> GivesFactors(p, b.v, rest.tail, b.env, r))
  {
    assert Look(0);
    a := Eval(p, rest.head, env);
    assert EvalOnto(p, rest.head, Mul, v, env) == Onto(p, Mul, v, a);
  }

  lemma GivesDivisor(p: Prims, v: Value, d: Option<Value>, rest: Exprs, env: Env, r: Result) returns (a: Result)
    requires rest.Cons? && GivesDivisors(p, v, d, rest, env, r)
    ensures !rest.head.Recip? ==> GivesDivisors(p, v, d, rest.tail, env, r)
    ensures rest.head.Recip? ==>
      var b := if d.None? then a else Onto(p, Mul, d.value, a);
      GivesE(p, rest.head.e, env, a) && (b.Err? ==> r == b) && (b.Val? ==> GivesDivisors(p, v, Some(b.v), rest.tail, b.env, r))
  {
    assert Look(0);
    a := r;
    if rest.head.Recip? {
      a := Eval(p, rest.head.e, env);
      if d.Some? { assert EvalOnto(p, rest.head.e, Mul, d.value, env) == Onto(p, Mul, d.value, a); }
    }
  }

  lemma GivesOperand(p: Prims, and: bool, v: Value, rest: Exprs, env: Env, r: Result) returns (a: Result)
    requires rest.Cons? && GivesAndOr(p, and, v, rest, env, r)
    ensures !v.Bool? ==> r == Err(NeedsBool, env)
    ensures v == Bool(!and) ==> r == Val(v, env)
    ensures v == Bool(and) ==> GivesE(p, rest.head, env, a) && (a.Err? ==> r == a)
    ensures v == Bool(and) && a.Val? ==> GivesAndOr(p, and, a.v, rest.tail, a.env, r)
    ensures rest.head.Compare? && a.Val? ==> a.v.Bool?
  {
    assert Look(0);
    a := Eval(p, rest.head, env);
  }

  lemma GivesMember(p: Prims, v: Value, list: Exprs, env: Env, r: Result) returns (a: Result)
    requires list.Cons? && GivesIn(p, v, list, env, r)
    ensures GivesE(p, list.head, env, a) && (a.Err? ==> r == a)
    ensures a.Val? && p.equal(v, a.v) ==> r == Val(Bool(true), a.env)
    ensures a.Val? && !p.equal(v, a.v) ==> GivesIn(p, v, list.tail, a.env, r)
    ensures a.Val? && !p.equal(v, a.v) && list.tail.Nil? ==> r == Val(Bool(false), a.env)
  {
    assert Look(0);
    a := Eval(p, list.head, env);
  }

  lemma GivesItem(p: Prims, list: Exprs, env: Env, r: Result) returns (a: Result)
    requires list.Cons? && GivesList(p, list, env, r)
    ensures GivesE(p, list.head, env, a) && (a.Err? ==> r == a)
    ensures a.Val? ==> GivesList(p, list.tail, a.env, r)
  {
    assert Look(0);
    a := Eval(p, list.head, env);
  }

  /** Nothing more to evaluate. */
  lemma GivesLast(p: Prims, op: ArithOp, v: Value, env: Env, r: Result)
    ensures GivesNary(p, op, v, Nil, env, r) ==> r == Val(v, env)
    ensures GivesFactors(p, v, Nil, env, r) ==> r == Val(v, env)
    ensures GivesList(p, Nil, env, r) ==> r == Val(Bool(true), env)
  {
    assert Look(0);
  }

  lemma GivesEnd(p: Prims, and: bool, v: Value, acc: seq<Value>, d: Option<Value>, env: Env, r: Result)
    ensures GivesJoin(p, acc, Nil, env, r) ==> r == Answered(p.cat(acc), env)
    ensures GivesDivisors(p, v, d, Nil, env, r) ==> r == if d.None? then Val(v, env) else Answered(p.arith(Div, v, d.value), env)
    ensures GivesAndOr(p, and, v, Nil, env, r) ==> r == if v.Bool? then Val(v, env) else Err(NeedsBool, env)
  {
    assert Look(0);
  }

  /** One result, and the run that goes on from it to another. */
  lemma RunResult(p: Prims, m: seq<Op>, s: State, a: Result, j: int, stk: seq<Value>, r: Result, end: int, stk1: seq<Value>)
    requires Reaches(p, m, s, 0, Pushed(a, j, stk)) && (a.Err? ==> r == a)
    requires a.Val? ==> Reaches(p, m, At(j, stk + [a.v], a.env), 0, Pushed(r, end, stk1))
    ensures Reaches(p, m, s, 0, Pushed(r, end, stk1))
  {
    if a.Val? { RunOn(p, m, s, 0, At(j, stk + [a.v], a.env), 0, Pushed(r, end, stk1)); }
  }

  // --------------------------------------------------------------- expressions

  /** The main result for expressions. */
  lemma SimE(p: Prims, m: seq<Op>, e: Expr, i: int, stk: seq<Value>, env: Env)
    requires HasE(m, i, e)
    ensures Reaches(p, m, At(i, stk, env), 0, Pushed(Eval(p, e, env), i + SizeE(e), stk))
  {
    SimR(p, m, e, i, i + SizeE(e), stk, env, Eval(p, e, env));
  }

  lemma {:induction false} SimR(p: Prims, m: seq<Op>, e: Expr, i: int, end: int, stk: seq<Value>, env: Env, r: Result)
    requires HasE(m, i, e) && GivesE(p, e, env, r) && end == i + SizeE(e)
    ensures Reaches(p, m, At(i, stk, env), 0, Pushed(r, end, stk))
    decreases e, 4
  {
    if Leaf(e) || (e.In? && e.rest.Nil?) {
      GivesLeaf(p, e, env, r);
      SimLeaf(p, m, e, i, stk, env);
    } else if e.Paren? {
      OneParts(m, i, e);
      var a := GivesPart(p, e, env, r);
      SimR(p, m, e.e, i, end, stk, env, a);
    } else if One(e) {
      SimOne(p, m, e, i, end, stk, env, r);
    } else if e.Recip? {
      SimRecip(p, m, e, i, end, stk, env, r);
    } else if Two(e) {
      SimTwo(p, m, e, i, end, stk, env, r);
    } else {
      SimLong(p, m, e, i, end, stk, env, r);
    }
  }

  lemma SimLeaf(p: Prims, m: seq<Op>, e: Expr, i: int, stk: seq<Value>, env: Env)
    requires (Leaf(e) || (e.In? && e.rest.Nil?)) && HasE(m, i, e)
    ensures Reaches(p, m, At(i, stk, env), 0, Pushed(if Leaf(e) then EvalLeaf(p, e, env) else Val(Bool(false), env), i + SizeE(e), stk))
  {
    if e.In? {
      NoneParts(m, i, e);
      RunOne(p, m, i, stk, env, Push(Bool(false)));
    } else if e.IncDec? {
      LeafParts(m, i, e);
      SimIncDec(p, m, e, i, stk, env);
    } else {
      LeafParts(m, i, e);
      RunOne(p, m, i, stk, env, CodeLeaf(e)[0]);
    }
  }

  lemma SimIncDec(p: Prims, m: seq<Op>, e: Expr, i: int, stk: seq<Value>, env: Env)
    requires e.IncDec? && HasLeaf(m, i, e)
    ensures Reaches(p, m, At(i, stk, env), 0, Pushed(EvalLeaf(p, e, env), i + 2, stk))
  {
    var op := LoadStore(e.name, if e.dec then Sub else Add, e.post);
    assert CodeLeaf(e) == [Push(Int(1))] + [op];
    StackTop(stk, Int(1));
    RunOne(p, m, i, stk, env, Push(Int(1)));
    RunOneMore(p, m, At(i, stk, env), i + 1, stk + [Int(1)], env, op);
  }

  lemma StepOne(p: Prims, m: seq<Op>, s: State, e: Expr, r: Result, i: int, stk: seq<Value>)
    requires One(e) && OpAt(m, i, Op1(e))
    requires Reaches(p, m, s, 0, Pushed(r, i, stk))
    ensures Reaches(p, m, s, 0, Pushed(if r.Err? then r else Apply1(p, e, r.v, r.env), i + 1, stk))
  {
    if r.Val? { StackTop(stk, r.v); }
    RunValue(p, m, s, r, i, stk, Op1(e));
  }

  lemma {:induction false} SimOne(p: Prims, m: seq<Op>, e: Expr, i: int, end: int, stk: seq<Value>, env: Env, r: Result)
    requires One(e) && HasE(m, i, e) && GivesE(p, e, env, r) && end == i + SizeE(e)
    ensures Reaches(p, m, At(i, stk, env), 0, Pushed(r, end, stk))
    decreases e, 2
  {
    OneParts(m, i, e);
    var a := GivesPart(p, e, env, r);
    SimR(p, m, e.e, i, end - 1, stk, env, a);
    StepOne(p, m, At(i, stk, env), e, a, end - 1, stk);
  }

  lemma {:induction false} SimRecip(p: Prims, m: seq<Op>, e: Expr, i: int, end: int, stk: seq<Value>, env: Env, r: Result)
    requires e.Recip? && HasE(m, i, e) && GivesE(p, e, env, r) && end == i + SizeE(e)
    ensures Reaches(p, m, At(i, stk, env), 0, Pushed(r, end, stk))
    decreases e, 2
  {
    RecipParts(m, i, e);
    var a := GivesPart(p, e, env, r);
    RunOne(p, m, i, stk, env, Push(Int(1)));
    SimOnto(p, m, e.e, Div, i + 1, end, stk, Int(1), env, a);
    RunAfter(p, m, At(i, stk, env), At(i + 1, stk + [Int(1)], env), Pushed(r, end, stk));
  }

  /** An operand on top of v, then a two-operand instruction. */
  lemma {:induction false} SimOnto(p: Prims, m: seq<Op>, e: Expr, op: ArithOp, i: int, end: int, stk: seq<Value>, v: Value, env: Env, a: Result)
    requires HasE(m, i, e) && OpAt(m, end - 1, Arith(op)) && end == i + SizeE(e) + 1 && GivesE(p, e, env, a)
    ensures Reaches(p, m, At(i, stk + [v], env), 0, Pushed(Onto(p, op, v, a), end, stk))
    decreases e, 5
  {
    SimR(p, m, e, i, end - 1, stk + [v], env, a);
    StepArith(p, m, At(i, stk + [v], env), op, v, a, end - 1, stk);
  }

  lemma StepTwo(p: Prims, m: seq<Op>, s: State, e: Expr, v: Value, r: Result, i: int, stk: seq<Value>)
    requires Two(e) && OpAt(m, i, Op2(e))
    requires Reaches(p, m, s, 0, Pushed(r, i, stk + [v]))
    ensures Reaches(p, m, s, 0, Pushed(if r.Err? then r else Apply2(p, e, v, r.v, r.env), i + 1, stk))
  {
    if r.Val? { StackTop2(stk, v, r.v); }
    RunValue(p, m, s, r, i, stk + [v], Op2(e));
  }

  lemma {:induction false} SimTwo(p: Prims, m: seq<Op>, e: Expr, i: int, end: int, stk: seq<Value>, env: Env, r: Result)
    requires Two(e) && HasE(m, i, e) && GivesE(p, e, env, r) && end == i + SizeE(e)
    ensures Reaches(p, m, At(i, stk, env), 0, Pushed(r, end, stk))
    decreases e, 2
  {
    TwoParts(m, i, e);
    var j := i + SizeE(e.l);
    var a, b := GivesTwo(p, e, env, r);
    SimR(p, m, e.l, i, j, stk, env, a);
    if a.Val? {
      SimR(p, m, e.r, j, end - 1, stk + [a.v], a.env, b);
      StepTwo(p, m, At(j, stk + [a.v], a.env), e, a.v, b, end - 1, stk);
    }
    RunResult(p, m, At(i, stk, env), a, j, stk, r, end, stk);
  }

  lemma {:induction false} SimLong(p: Prims, m: seq<Op>, e: Expr, i: int, end: int, stk: seq<Value>, env: Env, r: Result)
    requires Long(e) && !(e.In? && e.rest.Nil?) && HasE(m, i, e) && GivesE(p, e, env, r) && end == i + SizeE(e)
    ensures Reaches(p, m, At(i, stk, env), 0, Pushed(r, end, stk))
    decreases e, 3
  {
    var j := i + SizeE(Operand(e));
    LongParts(m, i, e, j);
    var a := GivesLong(p, e, env, r);
    SimR(p, m, Operand(e), i, j, stk, env, a);
    if a.Val? { SimRest(p, m, e, i, j, end, stk, a.v, a.env, r); }
    RunResult(p, m, At(i, stk, env), a, j, stk, r, end, stk);
  }

  lemma {:induction false} SimRest(p: Prims, m: seq<Op>, e: Expr, i: int, j: int, end: int, stk: seq<Value>, v: Value, env: Env, r: Result)
    requires Long(e) && !(e.In? && e.rest.Nil?) && HasRest(m, i, j, e) && end == i + SizeE(e) && end == j + SizeRest(e)
    requires GivesRest(p, e, v, env, r) && (e.AndOr? && e.e.Compare? ==> v.Bool?)
    ensures Reaches(p, m, At(j, stk + [v], env), 0, Pushed(r, end, stk))
    decreases e, 1
  {
    RestParts(m, i, j, e, end);
    GivesKind(p, e, v, env, r);
    if e.Nary? && Joins(e.aop, e.rest) {
      SimJoin(p, m, e.rest, j, end, 1, stk, [v], env, r);
    } else if e.Nary? {
      SimNary(p, m, e.aop, e.rest, j, end, stk, v, env, r);
    } else if e.Product? {
      SimProduct(p, m, e, j, end, stk, v, env, r);
    } else if e.Cond? {
      SimArms(p, m, e, j, end, stk, v, env, r);
    } else if e.AndOr? {
      SimAndOr(p, m, e.and, e.e, e.rest, j, stk, v, env, end, r);
    } else {
      SimIn(p, m, e.rest, j, stk, v, env, end, r);
    }
  }

  lemma {:induction false} SimArms(p: Prims, m: seq<Op>, e: Expr, i: int, end: int, stk: seq<Value>, v: Value, env: Env, r: Result)
    requires e.Cond? && HasArms(m, i, e) && GivesRest(p, e, v, env, r) && end == i + 2 + SizeE(e.l) + SizeE(e.r)
    ensures Reaches(p, m, At(i, stk + [v], env), 0, Pushed(r, end, stk))
    decreases e, 0
  {
    var q, s := i + 2 + SizeE(e.l), At(i, stk + [v], env);
    ArmsParts(m, i, e, q, end);
    GivesArm(p, e, v, env, r);
    StackTop(stk, v);
    RunOne(p, m, i, stk + [v], env, QMark(q));
    if v.Bool? && v.b {
      SimArm(p, m, e.l, i + 1, stk, env, end, r);
      RunAfter(p, m, s, At(i + 1, stk, env), Pushed(r, end, stk));
    } else if v.Bool? {
      SimR(p, m, e.r, q, end, stk, env, r);
      RunAfter(p, m, s, At(q, stk, env), Pushed(r, end, stk));
    } else {
      Fewer(p, m, s, 1, Panic(NeedsBool, env), 0);
    }
  }

  /** An arm that jumps over the other one. */
  lemma {:induction false} SimArm(p: Prims, m: seq<Op>, e: Expr, i: int, stk: seq<Value>, env: Env, end: int, r: Result)
    requires HasE(m, i, e) && OpAt(m, i + SizeE(e), Jump(end)) && GivesE(p, e, env, r)
    ensures Reaches(p, m, At(i, stk, env), 0, Pushed(r, end, stk))
    decreases e, 5
  {
    SimR(p, m, e, i, i + SizeE(e), stk, env, r);
    RunValue(p, m, At(i, stk, env), r, i + SizeE(e), stk, Jump(end));
  }

  lemma {:induction false} SimNary(p: Prims, m: seq<Op>, op: ArithOp, rest: Exprs, i: int, end: int, stk: seq<Value>, v: Value, env: Env, r: Result)
    requires HasNary(m, i, op, rest) && GivesNary(p, op, v, rest, env, r) && end == i + SizeNary(op, rest)
    ensures Reaches(p, m, At(i, stk + [v], env), 0, Pushed(r, end, stk))
    decreases rest, 0
  {
    if rest.Nil? {
      Stays(p, m, At(i, stk + [v], env));
      GivesLast(p, op, v, env, r);
    } else {
      NaryParts(m, i, op, rest);
      var sub := Subtracts(op, rest.head);
      var e, o := if sub then rest.head.e else rest.head, if sub then Sub else op;
      var j := i + SizeE(e) + 1;
      var a := GivesTerm(p, op, v, rest, env, r);
      SimOnto(p, m, e, o, i, j, stk, v, env, a);
      var b := Onto(p, o, v, a);
      if b.Val? { SimNary(p, m, op, rest.tail, j, end, stk, b.v, b.env, r); }
      RunResult(p, m, At(i, stk + [v], env), b, j, stk, r, end, stk);
    }
  }

  lemma {:induction false} SimJoin(p: Prims, m: seq<Op>, rest: Exprs, i: int, end: int, n: nat, stk: seq<Value>, acc: seq<Value>, env: Env, r: Result)
    requires HasJoin(m, i, rest, n) && |acc| == n && GivesJoin(p, acc, rest, env, r) && end == i + SizeJoin(rest)
    ensures Reaches(p, m, At(i, stk + acc, env), 0, Pushed(r, end, stk))
    decreases rest, 0
  {
    JoinParts(m, i, rest, n);
    var s := At(i, stk + acc, env);
    if rest.Nil? {
      GivesEnd(p, true, Bool(true), acc, None, env, r);
      RunOne(p, m, i, stk + acc, env, CatN(n));
      StackTopN(stk, acc);
      Fewer(p, m, s, 1, Pushed(r, end, stk), 0);
    } else {
      var j := i + SizeE(rest.head);
      var a := GivesNext(p, acc, rest, env, r);
      SimR(p, m, rest.head, i, j, stk + acc, env, a);
      if a.Val? {
        SimJoin(p, m, rest.tail, j, end, n + 1, stk, acc + [a.v], a.env, r);
        assert stk + acc + [a.v] == stk + (acc + [a.v]);
      }
      RunResult(p, m, s, a, j, stk + acc, r, end, stk);
    }
  }

  lemma StackTopN(stk: seq<Value>, acc: seq<Value>)
    ensures (stk + acc)[|stk + acc| - |acc|..] == acc && (stk + acc)[..|stk + acc| - |acc|] == stk
  {
  }

  lemma {:induction false} SimProduct(p: Prims, m: seq<Op>, e: Expr, i: int, end: int, stk: seq<Value>, v: Value, env: Env, r: Result)
    requires e.Product? && HasFactors(m, i, e.rest) && HasDivisors(m, i + SizeFactors(e.rest), e.rest, false)
    requires GivesRest(p, e, v, env, r) && end == i + SizeProduct(e.rest)
    ensures Reaches(p, m, At(i, stk + [v], env), 0, Pushed(r, end, stk))
    decreases e.rest, 2
  {
    var j := i + SizeFactors(e.rest);
    var a := GivesProduct(p, e, v, env, r);
    SimFactors(p, m, e.rest, i, j, stk, v, env, a);
    if a.Val? { SimDivisors(p, m, e.rest, j, end, stk, a.v, None, a.env, r); }
    RunResult(p, m, At(i, stk + [v], env), a, j, stk, r, end, stk);
  }

  lemma {:induction false} SimFactors(p: Prims, m: seq<Op>, rest: Exprs, i: int, end: int, stk: seq<Value>, v: Value, env: Env, r: Result)
    requires HasFactors(m, i, rest) && GivesFactors(p, v, rest, env, r) && end == i + SizeFactors(rest)
    ensures Reaches(p, m, At(i, stk + [v], env), 0, Pushed(r, end, stk))
    decreases rest, 1
  {
    if rest.Nil? {
      Stays(p, m, At(i, stk + [v], env));
      GivesLast(p, Mul, v, env, r);
    } else if rest.head.Recip? {
      FactorsParts(m, i, rest);
      var a := GivesFactor(p, v, rest, env, r);
      SimFactors(p, m, rest.tail, i, end, stk, v, env, r);
    } else {
      SimFactor(p, m, rest, i, end, stk, v, env, r);
    }
  }

  lemma {:induction false} SimFactor(p: Prims, m: seq<Op>, rest: Exprs, i: int, end: int, stk: seq<Value>, v: Value, env: Env, r: Result)
    requires rest.Cons? && !rest.head.Recip?
    requires HasFactors(m, i, rest) && GivesFactors(p, v, rest, env, r) && end == i + SizeFactors(rest)
    ensures Reaches(p, m, At(i, stk + [v], env), 0, Pushed(r, end, stk))
    decreases rest, 0
  {
    FactorsParts(m, i, rest);
    var a := GivesFactor(p, v, rest, env, r);
    var j := i + SizeE(rest.head) + 1;
    SimOnto(p, m, rest.head, Mul, i, j, stk, v, env, a);
    var b := Onto(p, Mul, v, a);
    if b.Val? { SimFactors(p, m, rest.tail, j, end, stk, b.v, b.env, r); }
    RunResult(p, m, At(i, stk + [v], env), b, j, stk, r, end, stk);
  }

  /** The stack of a division under way: the product, and the divisors' product once begun. */
  function Under(stk: seq<Value>, v: Value, d: Option<Value>): seq<Value> {
    if d.None? then stk + [v] else stk + [v] + [d.value]
  }

  lemma {:induction false} SimDivisors(p: Prims, m: seq<Op>, rest: Exprs, i: int, end: int, stk: seq<Value>, v: Value, d: Option<Value>, env: Env, r: Result)
    requires HasDivisors(m, i, rest, d.Some?) && GivesDivisors(p, v, d, rest, env, r) && end == i + SizeDivisors(rest, d.Some?)
    ensures Reaches(p, m, At(i, Under(stk, v, d), env), 0, Pushed(r, end, stk))
    decreases rest, 1
  {
    DivisorsParts(m, i, rest, d.Some?);
    if rest.Nil? {
      GivesEnd(p, true, v, [], d, env, r);
      Stays(p, m, At(i, Under(stk, v, d), env));
      if d.Some? { StepArith(p, m, At(i, stk + [v] + [d.value], env), Div, v, Val(d.value, env), i, stk); }
    } else if !rest.head.Recip? {
      var a := GivesDivisor(p, v, d, rest, env, r);
      SimDivisors(p, m, rest.tail, i, end, stk, v, d, env, r);
    } else {
      SimDivisor(p, m, rest, i, i + SizeE(rest.head.e) + (if d.None? then 0 else 1), end, stk, v, d, env, r);
    }
  }

  lemma {:induction false} SimDivisor(p: Prims, m: seq<Op>, rest: Exprs, i: int, j: int, end: int, stk: seq<Value>, v: Value, d: Option<Value>, env: Env, r: Result)
    requires rest.Cons? && rest.head.Recip? && j == i + SizeE(rest.head.e) + (if d.None? then 0 else 1)
    requires HasDivisors(m, i, rest, d.Some?) && GivesDivisors(p, v, d, rest, env, r) && end == j + SizeDivisors(rest.tail, true)
    ensures Reaches(p, m, At(i, Under(stk, v, d), env), 0, Pushed(r, end, stk))
    decreases rest, 0
  {
    DivisorsParts(m, i, rest, d.Some?);
    var a := GivesDivisor(p, v, d, rest, env, r);
    var b := if d.None? then a else Onto(p, Mul, d.value, a);
    if d.None? {
      SimR(p, m, rest.head.e, i, j, stk + [v], env, a);
    } else {
      SimOnto(p, m, rest.head.e, Mul, i, j, stk + [v], d.value, env, a);
    }
    if b.Val? { SimDivisors(p, m, rest.tail, j, end, stk, v, Some(b.v), b.env, r); }
    RunResult(p, m, At(i, Under(stk, v, d), env), b, j, stk + [v], r, end, stk);
  }

  lemma {:induction false} SimAndOr(p: Prims, m: seq<Op>, and: bool, prev: Expr, rest: Exprs, i: int, stk: seq<Value>, v: Value, env: Env, end: int, r: Result)
    requires HasAndOr(m, i, and, prev, rest, end) && end == i + SizeAndOr(prev, rest)
    requires GivesAndOr(p, and, v, rest, env, r) && (prev.Compare? ==> v.Bool?)
    ensures Reaches(p, m, At(i, stk + [v], env), 0, Pushed(r, end, stk))
    decreases rest, 1
  {
    AndOrParts(m, i, and, prev, rest, end);
    if rest.Nil? {
      GivesEnd(p, and, v, [], None, env, r);
      SimLastAndOr(p, m, prev, i, stk, v, env);
    } else {
      SimNextAndOr(p, m, and, rest, i, i + 1 + SizeE(rest.head), stk, v, env, end, r);
    }
  }

  lemma SimLastAndOr(p: Prims, m: seq<Op>, prev: Expr, i: int, stk: seq<Value>, v: Value, env: Env)
    requires (Checks(prev) ==> OpAt(m, i, Bool1)) && (prev.Compare? ==> v.Bool?)
    ensures Reaches(p, m, At(i, stk + [v], env), 0,
                    Pushed(if v.Bool? then Val(v, env) else Err(NeedsBool, env), i + (if Checks(prev) then 1 else 0), stk))
  {
    StackTop(stk, v);
    Stays(p, m, At(i, stk + [v], env));
    if Checks(prev) { RunOne(p, m, i, stk + [v], env, Bool1); }
  }

  /** Jumps out if the value so far decides, else the next operand. */
  lemma {:induction false} SimNextAndOr(p: Prims, m: seq<Op>, and: bool, rest: Exprs, i: int, j: int, stk: seq<Value>, v: Value, env: Env, end: int, r: Result)
    requires rest.Cons? && OpAt(m, i, if and then And(end) else Or(end)) && HasE(m, i + 1, rest.head) && j == i + 1 + SizeE(rest.head)
    requires HasAndOr(m, j, and, rest.head, rest.tail, end) && end == j + SizeAndOr(rest.head, rest.tail)
    requires GivesAndOr(p, and, v, rest, env, r)
    ensures Reaches(p, m, At(i, stk + [v], env), 0, Pushed(r, end, stk))
    decreases rest, 0
  {
    var a := GivesOperand(p, and, v, rest, env, r);
    if v == Bool(and) {
      SimR(p, m, rest.head, i + 1, j, stk, env, a);
      if a.Val? { SimAndOr(p, m, and, rest.head, rest.tail, j, stk, a.v, a.env, end, r); }
      RunResult(p, m, At(i + 1, stk, env), a, j, stk, r, end, stk);
    }
    StepAndOr(p, m, and, i, end, stk, v, env, r);
  }

  /** A jump out, an error, or on to the next operands, which give r. */
  lemma StepAndOr(p: Prims, m: seq<Op>, and: bool, i: int, end: int, stk: seq<Value>, v: Value, env: Env, r: Result)
    requires OpAt(m, i, if and then And(end) else Or(end))
    requires v == Bool(and) ==> Reaches(p, m, At(i + 1, stk, env), 0, Pushed(r, end, stk))
    requires (!v.Bool? ==> r == Err(NeedsBool, env)) && (v == Bool(!and) ==> r == Val(v, env))
    ensures Reaches(p, m, At(i, stk + [v], env), 0, Pushed(r, end, stk))
  {
    var op, s := if and then And(end) else Or(end), At(i, stk + [v], env);
    StackTop(stk, v);
    RunOne(p, m, i, stk + [v], env, op);
    if v == Bool(and) {
      RunAfter(p, m, s, At(i + 1, stk, env), Pushed(r, end, stk));
    } else {
      Fewer(p, m, s, 1, Do(p, op, i, stk + [v], env), 0);
    }
  }

  lemma {:induction false} SimIn(p: Prims, m: seq<Op>, list: Exprs, i: int, stk: seq<Value>, v: Value, env: Env, end: int, r: Result)
    requires list.Cons? && HasIn(m, i, list, end) && end == i + SizeIn(list) && GivesIn(p, v, list, env, r)
    ensures Reaches(p, m, At(i, stk + [v], env), 0, Pushed(r, end, stk))
    decreases list, 1
  {
    InParts(m, i, list, end);
    var j, s := i + SizeE(list.head) + 1, At(i, stk + [v], env);
    var a := GivesMember(p, v, list, env, r);
    SimR(p, m, list.head, i, j - 1, stk + [v], env, a);
    StepIn(p, m, s, list, v, a, j - 1, stk, end);
    if a.Val? && !p.equal(v, a.v) && list.tail.Cons? {
      SimIn(p, m, list.tail, j, stk, v, a.env, end, r);
      RunOn(p, m, s, 0, At(j, stk + [v], a.env), 0, Pushed(r, end, stk));
    }
  }

  lemma StepIn(p: Prims, m: seq<Op>, s: State, list: Exprs, x: Value, r: Result, i: int, stk: seq<Value>, end: int)
    requires list.Cons? && (list.tail.Nil? ==> end == i + 1)
    requires OpAt(m, i, if list.tail.Nil? then Compare2(Is) else InJump(end))
    requires Reaches(p, m, s, 0, Pushed(r, i, stk + [x]))
    ensures Reaches(p, m, s, 0,
                    if r.Err? then Panic(r.error, r.env)
                    else if p.equal(x, r.v) then At(end, stk + [Bool(true)], r.env)
                    else if list.tail.Nil? then At(end, stk + [Bool(false)], r.env)
                    else At(i + 1, stk + [x], r.env))
  {
    if r.Val? { StackTop2(stk, x, r.v); }
    RunValue(p, m, s, r, i, stk + [x], if list.tail.Nil? then Compare2(Is) else InJump(end));
  }

  /** Expressions compiled for their effect leave the stack as it was. */
  lemma SimList(p: Prims, m: seq<Op>, list: Exprs, i: int, stk: seq<Value>, env: Env)
    requires HasList(m, i, list)
    ensures Reaches(p, m, At(i, stk, env), 0, Effect(EvalList(p, list, env), i + SizeList(list), stk))
  {
    SimItems(p, m, list, i, i + SizeList(list), stk, env, EvalList(p, list, env));
  }

  lemma {:induction false} SimItems(p: Prims, m: seq<Op>, list: Exprs, i: int, end: int, stk: seq<Value>, env: Env, r: Result)
    requires HasList(m, i, list) && GivesList(p, list, env, r) && end == i + SizeList(list)
    ensures Reaches(p, m, At(i, stk, env), 0, Effect(r, end, stk))
    decreases list
  {
    var s := At(i, stk, env);
    if list.Nil? {
      Stays(p, m, s);
      GivesLast(p, Add, Bool(true), env, r);
    } else {
      ListParts(m, i, list);
      var j := i + SizeE(list.head) + 1;
      var a := GivesItem(p, list, env, r);
      SimDropped(p, m, list.head, i, j, stk, env, a);
      if a.Val? {
        SimItems(p, m, list.tail, j, end, stk, a.env, r);
        RunOn(p, m, s, 0, At(j, stk, a.env), 0, Effect(r, end, stk));
      }
    }
  }

  function Effect(r: Result, i: int, stk: seq<Value>): State {
    if r.Err? then Panic(r.error, r.env) else At(i, stk, r.env)
  }

  /** A value that is dropped. */
  lemma SimDropped(p: Prims, m: seq<Op>, e: Expr, i: int, j: int, stk: seq<Value>, env: Env, a: Result)
    requires HasE(m, i, e) && j == i + SizeE(e) + 1 && OpAt(m, j - 1, Pop) && GivesE(p, e, env, a)
    ensures Reaches(p, m, At(i, stk, env), 0, Effect(a, j, stk))
  {
    SimR(p, m, e, i, j - 1, stk, env, a);
    if a.Val? { StackTop(stk, a.v); }
    RunValue(p, m, At(i, stk, env), a, j - 1, stk, Pop);
  }

  lemma SimEffect(p: Prims, m: seq<Op>, e: Expr, i: int, stk: seq<Value>, env: Env)
    requires HasE(m, i, e) && OpAt(m, i + SizeE(e), Pop)
    ensures Reaches(p, m, At(i, stk, env), 0, Effect(Eval(p, e, env), i + SizeE(e) + 1, stk))
  {
    SimDropped(p, m, e, i, i + SizeE(e) + 1, stk, env, Eval(p, e, env));
  }
}
