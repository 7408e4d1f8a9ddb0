/**
  Products: all factors are evaluated and multiplied before the divisors, and there is one
  division.  The documentation has them evaluated from left to right.
  */
module Products {
  import opened Ast
  import opened Seal

  // ----- real numbers ----------------------------------------------------------------------------

  /** c is a times b; sealed. */
  ghost predicate Times(a: real, b: real, c: real) {
    var sealed := forall u: int {:trigger Look(u)} :: Look(u) ==> c == a * b;
    sealed
  }

  /** c is a over b; sealed. */
  ghost predicate Over(a: real, b: real, c: real) {
    var sealed := forall u: int {:trigger Look(u)} :: Look(u) ==> b != 0.0 && c == a / b;
    sealed
  }

  lemma DivideTwice(a: real, d: real, q: real, x: real, e: real, r: real)
    requires Over(a, d, q) && Times(d, x, e) && Over(q, x, r)
    ensures e != 0.0 && Over(a, e, r)
  {
    assert Look(0);
    assert r * x == q && q * d == a;
    assert r * e == (r * x) * d;
  }

  lemma DivideFirst(a: real, x: real, q: real, y: real, b: real, r: real)
    requires Over(a, x, q) && Times(a, y, b) && Times(q, y, r)
    ensures Over(b, x, r)
  {
    assert Look(0);
    assert q * x == a;
    assert r * x == (q * x) * y;
  }

  lemma Associate(x: real, d: real, e: real, y: real, d1: real, e1: real)
    requires Times(x, d, e) && Times(d, y, d1) && Times(e, y, e1) && d != 0.0 && y != 0.0
    ensures Times(x, d1, e1) && d1 != 0.0
  {
    assert Look(0);
    assert x * d * y == x * (d * y);
  }

  // ----- from left to right --------------------------------------------------------------------

  function Factor(e: Expr): Expr { if e.Recip? then e.e else e }

  /** The operands one after the other, multiplying or dividing by each. */
  function EvalInOrder(p: Prims, acc: Value, rest: Exprs, env: Env): Result
    decreases rest
  {
    match rest
    case Nil => Val(acc, env)
    case Cons(e, tail) =>
      var r := EvalOnto(p, Factor(e), if e.Recip? then Div else Mul, acc, env);
      if r.Err? then r else EvalInOrder(p, r.v, tail, r.env)
  }

  /** Which values are numbers. */
  type Reading = Value -> Option<real>

  /** Multiplying and dividing numbers is exact, and a number is one value; sealed. */
  ghost predicate Exact(p: Prims, num: Reading) {
    var sealed := forall u: int {:trigger Open(u)} :: Open(u) ==> forall a, b :: ExactFor(p, num, a, b);
    sealed
  }

  predicate ExactFor(p: Prims, num: Reading, a: Value, b: Value) {
    num(a).Some? && num(b).Some? ==>
      var x, y, product, quotient := num(a).value, num(b).value, p.arith(Mul, a, b), p.arith(Div, a, b);
      && product.Gives? && num(product.value) == Some(x * y)
      && (y != 0.0 ==> quotient.Gives? && num(quotient.value) == Some(x / y))
      && (x == y ==> a == b)
  }

  /** q is a divided by x. */
  ghost predicate Quotient(num: Reading, a: Value, x: Value, q: Value) {
    num(a).Some? && num(x).Some? && num(x).value != 0.0 && num(q).Some? && Over(num(a).value, num(x).value, num(q).value)
  }

  lemma Multiply(p: Prims, num: Reading, a: Value, b: Value) returns (c: Value)
    requires Exact(p, num) && num(a).Some? && num(b).Some?
    ensures p.arith(Mul, a, b) == Gives(c) && num(c).Some? && Times(num(a).value, num(b).value, num(c).value)
  {
    assert Open(0);
    assert ExactFor(p, num, a, b);
    c := p.arith(Mul, a, b).value;
  }

  lemma Divide(p: Prims, num: Reading, a: Value, b: Value) returns (c: Value)
    requires Exact(p, num) && num(a).Some? && num(b).Some? && num(b).value != 0.0
    ensures p.arith(Div, a, b) == Gives(c) && Quotient(num, a, b, c)
  {
    assert Open(0);
    assert ExactFor(p, num, a, b);
    c := p.arith(Div, a, b).value;
  }

  lemma QuotientIs(p: Prims, num: Reading, a: Value, e: Value, r: Value)
    requires Exact(p, num) && Quotient(num, a, e, r)
    ensures p.arith(Div, a, e) == Gives(r)
  {
    assert Look(0);
    var s := Divide(p, num, a, e);
    assert Open(0);
    assert ExactFor(p, num, r, s);
  }

  /** An operand that has been evaluated is a number, and not zero if it is a divisor. */
  predicate Fits(num: Reading, e: Expr, v: Value) {
    num(v).Some? && (e.Recip? ==> num(v).value != 0.0)
  }

  /** From left to right, each operand raises an error or gives a number. */
  predicate Numeric(p: Prims, num: Reading, rest: Exprs, env: Env) {
    rest.Cons? ==>
      var r := Eval(p, Factor(rest.head), env);
      r.Val? ==> Fits(num, rest.head, r.v) && Numeric(p, num, rest.tail, r.env)
  }

  /** Each operand gives a number and changes nothing. */
  predicate Steady(p: Prims, num: Reading, rest: Exprs, env: Env) {
    rest.Cons? ==>
      var r := Eval(p, Factor(rest.head), env);
      r.Val? && r.env == env && Fits(num, rest.head, r.v) && Steady(p, num, rest.tail, env)
  }

  predicate OnlyDivisors(rest: Exprs) {
    rest.Cons? ==> rest.head.Recip? && OnlyDivisors(rest.tail)
  }

  /** No factor comes after a divisor. */
  predicate DivisorsLast(rest: Exprs) {
    rest.Cons? ==> if rest.head.Recip? then OnlyDivisors(rest.tail) else DivisorsLast(rest.tail)
  }

  // ----- divisors last -----------------------------------------------------------------------------

  /** Dividing by one divisor after the other is dividing by their product, whatever they do. */
  lemma {:induction false} DivisorsInOrder(p: Prims, num: Reading, acc: Value, d: Value, q: Value, rest: Exprs, env: Env)
    requires Exact(p, num) && OnlyDivisors(rest) && Numeric(p, num, rest, env)
    requires Quotient(num, acc, d, q)
    ensures EvalDivisors(p, acc, Some(d), rest, env) == EvalInOrder(p, q, rest, env)
    decreases rest
  {
    if rest.Cons? {
      var r := Eval(p, rest.head.e, env);
      if r.Val? {
        var d1 := Multiply(p, num, d, r.v);
        var q1 := Divide(p, num, q, r.v);
        DivideTwice(num(acc).value, num(d).value, num(q).value, num(r.v).value, num(d1).value, num(q1).value);
        DivisorsInOrder(p, num, acc, d1, q1, rest.tail, r.env);
      }
    } else {
      QuotientIs(p, num, acc, d, q);
    }
  }

  lemma {:induction false} NoFactors(p: Prims, acc: Value, rest: Exprs, env: Env)
    requires OnlyDivisors(rest)
    ensures EvalFactors(p, acc, rest, env) == Val(acc, env)
    decreases rest
  {
    if rest.Cons? { NoFactors(p, acc, rest.tail, env); }
  }

  /** With the divisors last a product is evaluated from left to right, effects and errors included. */
  lemma {:induction false} LastInOrder(p: Prims, num: Reading, acc: Value, rest: Exprs, env: Env)
    requires Exact(p, num) && DivisorsLast(rest) && num(acc).Some? && Numeric(p, num, rest, env)
    ensures EvalProduct(p, acc, rest, env) == EvalInOrder(p, acc, rest, env)
    decreases rest
  {
    if rest.Cons? {
      var r := Eval(p, Factor(rest.head), env);
      if rest.head.Recip? {
        NoFactors(p, acc, rest, env);
        if r.Val? {
          var q := Divide(p, num, acc, r.v);
          DivisorsInOrder(p, num, acc, r.v, q, rest.tail, r.env);
        }
      } else if r.Val? {
        var v := Multiply(p, num, acc, r.v);
        LastInOrder(p, num, v, rest.tail, r.env);
        FactorFirst(p, acc, v, rest, env, r);
      }
    }
  }

  lemma FactorFirst(p: Prims, acc: Value, v: Value, rest: Exprs, env: Env, r: Result)
    requires rest.Cons? && !rest.head.Recip? && r == Eval(p, rest.head, env) && r.Val? && p.arith(Mul, acc, r.v) == Gives(v)
    ensures EvalProduct(p, acc, rest, env) == EvalProduct(p, v, rest.tail, r.env)
  {
    assert EvalFactors(p, acc, rest, env) == EvalFactors(p, v, rest.tail, r.env);
  }

  // ----- any order ----------------------------------------------------------------------------------

  /** Dividing before multiplying by the factors. */
  lemma {:induction false} FactorsAfter(p: Prims, num: Reading, a: Value, x: Value, q: Value, rest: Exprs, env: Env)
    requires Exact(p, num) && Steady(p, num, rest, env) && Quotient(num, a, x, q)
    ensures var r, s := EvalFactors(p, a, rest, env), EvalFactors(p, q, rest, env);
      r.Val? && s.Val? && r.env == s.env == env && Quotient(num, r.v, x, s.v)
    decreases rest
  {
    if rest.Cons? {
      if rest.head.Recip? {
        FactorsAfter(p, num, a, x, q, rest.tail, env);
      } else {
        var y := Eval(p, rest.head, env).v;
        var a1 := Multiply(p, num, a, y);
        var q1 := Multiply(p, num, q, y);
        DivideFirst(num(a).value, num(x).value, num(q).value, num(y).value, num(a1).value, num(q1).value);
        FactorsAfter(p, num, a1, x, q1, rest.tail, env);
      }
    }
  }

  /** e is the divisor d multiplied by x. */
  ghost predicate Multiple(num: Reading, x: Value, d: Value, e: Value) {
    num(x).Some? && num(d).Some? && num(d).value != 0.0 && num(e).Some? && Times(num(x).value, num(d).value, num(e).value)
  }

  lemma SameQuotient(p: Prims, num: Reading, a: Value, x: Value, q: Value, d: Value, e: Value)
    requires Exact(p, num) && Quotient(num, a, x, q) && Multiple(num, x, d, e)
    ensures p.arith(Div, a, e) == p.arith(Div, q, d)
  {
    var r := Divide(p, num, q, d);
    DivideTwice(num(a).value, num(x).value, num(q).value, num(d).value, num(e).value, num(r).value);
    QuotientIs(p, num, a, e, r);
  }

  lemma MultiplyBoth(p: Prims, num: Reading, x: Value, d: Value, e: Value, y: Value) returns (d1: Value, e1: Value)
    requires Exact(p, num) && Multiple(num, x, d, e) && num(y).Some? && num(y).value != 0.0
    ensures p.arith(Mul, d, y) == Gives(d1) && p.arith(Mul, e, y) == Gives(e1) && Multiple(num, x, d1, e1)
  {
    d1 := Multiply(p, num, d, y);
    e1 := Multiply(p, num, e, y);
    Associate(num(x).value, num(d).value, num(e).value, num(y).value, num(d1).value, num(e1).value);
  }

  /** One divisor x less, if it has been divided by already. */
  lemma {:induction false} DivisorsAfter(p: Prims, num: Reading, a: Value, x: Value, q: Value, d: Value, e: Value, rest: Exprs, env: Env)
    requires Exact(p, num) && Steady(p, num, rest, env) && Quotient(num, a, x, q) && Multiple(num, x, d, e)
    ensures EvalDivisors(p, a, Some(e), rest, env) == EvalDivisors(p, q, Some(d), rest, env)
    decreases rest
  {
    if rest.Nil? {
      SameQuotient(p, num, a, x, q, d, e);
    } else if rest.head.Recip? {
      var d1, e1 := MultiplyBoth(p, num, x, d, e, Eval(p, rest.head.e, env).v);
      DivisorsAfter(p, num, a, x, q, d1, e1, rest.tail, env);
    } else {
      DivisorsAfter(p, num, a, x, q, d, e, rest.tail, env);
    }
  }

  lemma {:induction false} FirstDivisor(p: Prims, num: Reading, a: Value, x: Value, q: Value, rest: Exprs, env: Env)
    requires Exact(p, num) && Steady(p, num, rest, env) && Quotient(num, a, x, q)
    ensures EvalDivisors(p, a, Some(x), rest, env) == EvalDivisors(p, q, None, rest, env)
    decreases rest
  {
    if rest.Nil? {
      QuotientIs(p, num, a, x, q);
    } else if rest.head.Recip? {
      var y := Eval(p, rest.head.e, env).v;
      var e := Multiply(p, num, x, y);
      DivisorsAfter(p, num, a, x, q, y, e, rest.tail, env);
    } else {
      FirstDivisor(p, num, a, x, q, rest.tail, env);
    }
  }

  /** If no operand has an effect or fails, a product has the value it has from left to right. */
  lemma {:induction false} SteadyInOrder(p: Prims, num: Reading, acc: Value, rest: Exprs, env: Env)
    requires Exact(p, num) && num(acc).Some? && Steady(p, num, rest, env)
    ensures EvalProduct(p, acc, rest, env) == EvalInOrder(p, acc, rest, env)
    decreases rest
  {
    if rest.Cons? {
      var r := Eval(p, Factor(rest.head), env);
      if rest.head.Recip? {
        var q := Divide(p, num, acc, r.v);
        SteadyInOrder(p, num, q, rest.tail, env);
        FactorsAfter(p, num, acc, r.v, q, rest.tail, env);
        var f, g := EvalFactors(p, acc, rest.tail, env).v, EvalFactors(p, q, rest.tail, env).v;
        FirstDivisor(p, num, f, r.v, g, rest.tail, env);
      } else {
        var v := Multiply(p, num, acc, r.v);
        SteadyInOrder(p, num, v, rest.tail, env);
        FactorFirst(p, acc, v, rest, env, r);
      }
    }
  }

  // ----- exactly when -----------------------------------------------------------------------------------

  /** The divisors are in the same places. */
  predicate Shaped(rest: Exprs, ops: Exprs) {
    match rest
    case Nil => ops.Nil?
    case Cons(e, tail) => ops.Cons? && (e.Recip? <==> ops.head.Recip?) && Shaped(tail, ops.tail)
  }

  lemma {:induction false} ShapedLast(rest: Exprs, ops: Exprs)
    requires Shaped(rest, ops)
    ensures (OnlyDivisors(rest) <==> OnlyDivisors(ops)) && (DivisorsLast(rest) <==> DivisorsLast(ops))
  {
    if rest.Cons? { ShapedLast(rest.tail, ops.tail); }
  }

  const X := "x"
  const Y := "y"

  /** Divisors that set a variable and, after the first one, factors that use it. */
  function Trap(rest: Exprs, begun: bool): Exprs {
    match rest
    case Nil => Nil
    case Cons(e, tail) =>
      if e.Recip? then Cons(Recip(Assign(X, Local(Y))), Trap(tail, true))
      else Cons(Local(if begun then X else Y), Trap(tail, begun))
  }

  /** y is one, and x is, once it has been set. */
  predicate SetWhen(begun: bool, env: Env) {
    Y in env && env[Y] == Int(1) && if begun then X in env && env[X] == Int(1) else X !in env
  }

  lemma {:induction false} TrapShaped(rest: Exprs, begun: bool)
    ensures Shaped(rest, Trap(rest, begun))
  {
    if rest.Cons? { TrapShaped(rest.tail, begun || rest.head.Recip?); }
  }

  /** From left to right the trap is harmless. */
  lemma {:induction false} TrapInOrder(p: Prims, num: Reading, acc: Value, rest: Exprs, begun: bool, env: Env)
    requires Exact(p, num) && num(acc).Some? && num(Int(1)) == Some(1.0) && SetWhen(begun, env)
    ensures Numeric(p, num, Trap(rest, begun), env) && EvalInOrder(p, acc, Trap(rest, begun), env).Val?
    decreases rest
  {
    if rest.Cons? {
      var next := begun || rest.head.Recip?;
      var env1 := if rest.head.Recip? then env[X := Int(1)] else env;
      var e := Trap(rest, begun).head;
      assert Eval(p, Factor(e), env) == Val(Int(1), env1);
      var v;
      if rest.head.Recip? { v := Divide(p, num, acc, Int(1)); } else { v := Multiply(p, num, acc, Int(1)); }
      TrapInOrder(p, num, v, rest.tail, next, env1);
    }
  }

  /** With the factors first it is not. */
  lemma {:induction false} TrapSprung(p: Prims, num: Reading, acc: Value, rest: Exprs, begun: bool, env: Env)
    requires Exact(p, num) && num(acc).Some? && num(Int(1)) == Some(1.0) && SetWhen(false, env)
    requires if begun then !OnlyDivisors(rest) else !DivisorsLast(rest)
    ensures EvalFactors(p, acc, Trap(rest, begun), env) == Err(Uninitialized(X), env)
    decreases rest
  {
    if rest.head.Recip? {
      TrapSprung(p, num, acc, rest.tail, true, env);
    } else if !begun {
      var v := Multiply(p, num, acc, Int(1));
      assert Eval(p, Local(Y), env) == Val(Int(1), env);
      TrapSprung(p, num, v, rest.tail, false, env);
    }
  }

  /** In y / (x = y) * x the last x comes first. */
  lemma FactorTooEarly(p: Prims, num: Reading, env: Env)
    requires Exact(p, num) && num(Int(1)) == Some(1.0) && SetWhen(false, env)
    ensures var rest := Cons(Recip(Assign(X, Local(Y))), Cons(Local(X), Nil));
      && Eval(p, Product(Local(Y), rest), env) == Err(Uninitialized(X), env)
      && EvalInOrder(p, Int(1), rest, env) == Val(Int(1), env[X := Int(1)])
  {
    QuotientIs(p, num, Int(1), Int(1), Int(1));
    var v := Multiply(p, num, Int(1), Int(1));
    assert Look(0);
    assert Eval(p, Assign(X, Local(Y)), env) == Val(Int(1), env[X := Int(1)]);
    assert Open(0);
    assert ExactFor(p, num, v, Int(1));
  }

  /** Operands with the divisors in these places are evaluated from left to right. */
  ghost predicate InOrder(p: Prims, num: Reading, rest: Exprs) {
    forall acc, ops, env | num(acc).Some? && Shaped(rest, ops) && Numeric(p, num, ops, env) ::
      EvalProduct(p, acc, ops, env) == EvalInOrder(p, acc, ops, env)
  }

  /** Products are evaluated from left to right, whatever the operands, if and only if no factor
      comes after a divisor. */
  lemma InOrderExactlyWhen(p: Prims, num: Reading, rest: Exprs)
    requires Exact(p, num) && num(Int(1)) == Some(1.0)
    ensures InOrder(p, num, rest) <==> DivisorsLast(rest)
  {
    if DivisorsLast(rest) {
      forall acc, ops, env | num(acc).Some? && Shaped(rest, ops) && Numeric(p, num, ops, env)
        ensures EvalProduct(p, acc, ops, env) == EvalInOrder(p, acc, ops, env)
      {
        ShapedLast(rest, ops);
        LastInOrder(p, num, acc, ops, env);
      }
    } else {
      var ops, env := Trap(rest, false), map[Y := Int(1)];
      TrapShaped(rest, false);
      TrapInOrder(p, num, Int(1), rest, false, env);
      TrapSprung(p, num, Int(1), rest, false, env);
      assert EvalProduct(p, Int(1), ops, env) != EvalInOrder(p, Int(1), ops, env);
    }
  }
}
