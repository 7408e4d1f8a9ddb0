/**
  For every function body there is a list of instructions that has its layout.
  Each lemma appends the code of one construct to what is there; what stands in a
  list stands in every list that has the same instructions at the same places.
  */
module Build {
  import opened Ast
  import opened Ops
  import opened LayoutExpr
  import opened LayoutStmt
  import opened Seal

  /** Every instruction of m stands at the same place in m1. */
  ghost predicate Within(m: seq<Op>, m1: seq<Op>) {
    var sealed := forall u: int {:trigger Open(u)} :: Open(u) ==> forall i, op :: OpAt(m, i, op) ==> OpAt(m1, i, op);
    sealed
  }

  lemma WithinTrans(a: seq<Op>, b: seq<Op>, c: seq<Op>)
    ensures Within(a, b) && Within(b, c) ==> Within(a, c)
  {
    if Within(a, b) && Within(b, c) { assert Open(0); }
  }

  lemma OpWithin(m: seq<Op>, m1: seq<Op>, i: int, op: Op)
    ensures Within(m, m1) && OpAt(m, i, op) ==> OpAt(m1, i, op)
  {
    if Within(m, m1) { assert Open(0); }
  }

  /** An instruction of a stands in whatever a later list is within. */
  lemma OpKept(a: seq<Op>, b: seq<Op>, c: seq<Op>, i: int, op: Op)
    ensures Within(a, b) && Within(b, c) && OpAt(a, i, op) ==> OpAt(c, i, op)
  {
    OpWithin(a, b, i, op);
    OpWithin(b, c, i, op);
  }

  lemma Append(m: seq<Op>, op: Op) returns (m1: seq<Op>)
    ensures |m1| == |m| + 1 && Within(m, m1) && OpAt(m1, |m|, op)
    ensures op != Jump(Nowhere) && Straight(m) ==> Straight(m1)
  {
    m1 := m + [op];
    if Straight(m) { assert Open(0); }
  }

  // What stands in every list that m is within.

  ghost predicate KeptE(m: seq<Op>, i: int, e: Expr) {
    forall m1 :: Within(m, m1) ==> HasE(m1, i, e)
  }

  ghost predicate KeptRest(m: seq<Op>, i: int, j: int, e: Expr)
    requires Long(e)
  {
    forall m1 :: Within(m, m1) ==> HasRest(m1, i, j, e)
  }

  ghost predicate KeptNary(m: seq<Op>, i: int, op: ArithOp, rest: Exprs) {
    forall m1 :: Within(m, m1) ==> HasNary(m1, i, op, rest)
  }

  ghost predicate KeptJoin(m: seq<Op>, i: int, rest: Exprs, n: nat) {
    forall m1 :: Within(m, m1) ==> HasJoin(m1, i, rest, n)
  }

  ghost predicate KeptFactors(m: seq<Op>, i: int, rest: Exprs) {
    forall m1 :: Within(m, m1) ==> HasFactors(m1, i, rest)
  }

  ghost predicate KeptDivisors(m: seq<Op>, i: int, rest: Exprs, begun: bool) {
    forall m1 :: Within(m, m1) ==> HasDivisors(m1, i, rest, begun)
  }

  ghost predicate KeptAndOr(m: seq<Op>, i: int, and: bool, prev: Expr, rest: Exprs, end: int) {
    forall m1 :: Within(m, m1) ==> HasAndOr(m1, i, and, prev, rest, end)
  }

  ghost predicate KeptIn(m: seq<Op>, i: int, list: Exprs, end: int) {
    forall m1 :: Within(m, m1) ==> HasIn(m1, i, list, end)
  }

  ghost predicate KeptList(m: seq<Op>, i: int, list: Exprs) {
    forall m1 :: Within(m, m1) ==> HasList(m1, i, list)
  }

  // -------------------------------------------------------------- expressions

  lemma {:induction false} BuildE(m: seq<Op>, e: Expr) returns (m1: seq<Op>)
    ensures Within(m, m1) && |m1| == |m| + SizeE(e) && KeptE(m1, |m|, e)
    ensures Straight(m) ==> Straight(m1)
    decreases e, 3
  {
    if Leaf(e) {
      m1 := BuildLeaf(m, e);
    } else if e.Paren? || One(e) {
      m1 := BuildOne(m, e);
    } else if e.Recip? {
      m1 := BuildRecip(m, e);
    } else if Two(e) {
      m1 := BuildTwo(m, e);
    } else if e.In? && e.rest.Nil? {
      m1 := Append(m, Push(Bool(false)));
      forall m2 | Within(m1, m2) ensures HasE(m2, |m|, e) { OpWithin(m1, m2, |m|, Push(Bool(false))); }
    } else {
      m1 := BuildLong(m, e);
    }
  }

  lemma BuildLeaf(m: seq<Op>, e: Expr) returns (m1: seq<Op>)
    requires Leaf(e)
    ensures Within(m, m1) && |m1| == |m| + SizeE(e) && KeptE(m1, |m|, e)
    ensures Straight(m) ==> Straight(m1)
  {
    var a := Append(m, CodeLeaf(e)[0]);
    m1 := a;
    if e.IncDec? {
      m1 := Append(a, CodeLeaf(e)[1]);
      WithinTrans(m, a, m1);
      OpWithin(a, m1, |m|, CodeLeaf(e)[0]);
    }
    forall m2 | Within(m1, m2) ensures HasE(m2, |m|, e) {
      OpWithin(m1, m2, |m|, CodeLeaf(e)[0]);
      if e.IncDec? { OpWithin(m1, m2, |m| + 1, CodeLeaf(e)[1]); }
    }
  }

  lemma {:induction false} BuildOne(m: seq<Op>, e: Expr) returns (m1: seq<Op>)
    requires e.Paren? || One(e)
    ensures Within(m, m1) && |m1| == |m| + SizeE(e) && KeptE(m1, |m|, e)
    ensures Straight(m) ==> Straight(m1)
    decreases e, 2
  {
    m1 := BuildE(m, e.e);
    if One(e) {
      var a := m1;
      m1 := Append(a, Op1(e));
      WithinTrans(m, a, m1);
      forall m2 | Within(m1, m2) ensures HasE(m2, |m|, e) {
        WithinTrans(a, m1, m2);
        OpWithin(m1, m2, |a|, Op1(e));
      }
    } else {
      forall m2 | Within(m1, m2) ensures HasE(m2, |m|, e) { assert HasE(m2, |m|, e.e); }
    }
  }

  lemma {:induction false} BuildRecip(m: seq<Op>, e: Expr) returns (m1: seq<Op>)
    requires e.Recip?
    ensures Within(m, m1) && |m1| == |m| + SizeE(e) && KeptE(m1, |m|, e)
    ensures Straight(m) ==> Straight(m1)
    decreases e, 2
  {
    var a := Append(m, Push(Int(1)));
    var b := BuildE(a, e.e);
    m1 := Append(b, Arith(Div));
    WithinTrans(a, b, m1);
    WithinTrans(m, a, m1);
    forall m2 | Within(m1, m2) ensures HasE(m2, |m|, e) {
      WithinTrans(b, m1, m2);
      OpKept(a, m1, m2, |m|, Push(Int(1)));
      OpWithin(m1, m2, |b|, Arith(Div));
    }
  }

  lemma MakeTwo(m: seq<Op>, i: int, e: Expr, j: int, k: int)
    requires Two(e) && j == i + SizeE(e.l) && k == j + SizeE(e.r)
    requires HasE(m, i, e.l) && HasE(m, j, e.r) && OpAt(m, k, Op2(e))
    ensures HasE(m, i, e)
  {
  }

  lemma {:induction false} BuildTwo(m: seq<Op>, e: Expr) returns (m1: seq<Op>)
    requires Two(e)
    ensures Within(m, m1) && |m1| == |m| + SizeE(e) && KeptE(m1, |m|, e)
    ensures Straight(m) ==> Straight(m1)
    decreases e, 2
  {
    var a := BuildE(m, e.l);
    var b := BuildE(a, e.r);
    m1 := Append(b, Op2(e));
    WithinTrans(a, b, m1);
    WithinTrans(m, a, m1);
    forall m2 | Within(m1, m2) ensures HasE(m2, |m|, e) {
      WithinTrans(b, m1, m2);
      WithinTrans(a, m1, m2);
      OpWithin(m1, m2, |b|, Op2(e));
      MakeTwo(m2, |m|, e, |a|, |b|);
    }
  }

  lemma {:induction false} BuildLong(m: seq<Op>, e: Expr) returns (m1: seq<Op>)
    requires Long(e) && !(e.In? && e.rest.Nil?)
    ensures Within(m, m1) && |m1| == |m| + SizeE(e) && KeptE(m1, |m|, e)
    ensures Straight(m) ==> Straight(m1)
    decreases e, 2
  {
    LongSize(e);
    var a := BuildE(m, Operand(e));
    m1 := BuildRest(a, |m|, e);
    WithinTrans(m, a, m1);
    forall m2 | Within(m1, m2) ensures HasE(m2, |m|, e) { WithinTrans(a, m1, m2); }
  }

  lemma {:induction false} BuildRest(m: seq<Op>, i: int, e: Expr) returns (m1: seq<Op>)
    requires Long(e) && !(e.In? && e.rest.Nil?) && |m| == i + SizeE(Operand(e))
    ensures Within(m, m1) && |m1| == |m| + SizeRest(e) && KeptRest(m1, i, |m|, e)
    ensures Straight(m) ==> Straight(m1)
    decreases e, 1
  {
    LongSize(e);
    if e.Nary? && Joins(e.aop, e.rest) {
      m1 := BuildJoin(m, e.rest, 1);
    } else if e.Nary? {
      m1 := BuildNary(m, e.aop, e.rest);
    } else if e.Product? {
      m1 := BuildProduct(m, i, e);
    } else if e.AndOr? {
      m1 := BuildAndOr(m, e.and, e.e, e.rest, i + SizeE(e));
    } else if e.In? {
      m1 := BuildIn(m, e.rest, i + SizeE(e));
    } else {
      m1 := BuildArms(m, i, e);
    }
  }

  lemma {:induction false} BuildArms(m: seq<Op>, i: int, e: Expr) returns (m1: seq<Op>)
    requires e.Cond?
    ensures Within(m, m1) && |m1| == |m| + 2 + SizeE(e.l) + SizeE(e.r) && KeptRest(m1, i, |m|, e)
    ensures Straight(m) ==> Straight(m1)
    decreases e, 0
  {
    var k := |m| + 1 + SizeE(e.l) + 1;
    var a := Append(m, QMark(k));
    var b := BuildE(a, e.l);
    var c := Append(b, Jump(k + SizeE(e.r)));
    m1 := BuildE(c, e.r);
    WithinTrans(b, c, m1);
    WithinTrans(a, b, m1);
    WithinTrans(m, a, m1);
    forall m2 | Within(m1, m2) ensures HasRest(m2, i, |m|, e) {
      WithinTrans(b, m1, m2);
      OpKept(a, m1, m2, |m|, QMark(k));
      OpKept(c, m1, m2, |b|, Jump(k + SizeE(e.r)));
      MakeCond(m2, i, |m|, e, k);
    }
  }

  lemma MakeCond(m: seq<Op>, i: int, j: int, e: Expr, k: int)
    requires e.Cond? && k == j + 1 + SizeE(e.l) + 1
    requires OpAt(m, j, QMark(k)) && HasE(m, j + 1, e.l) && OpAt(m, k - 1, Jump(k + SizeE(e.r))) && HasE(m, k, e.r)
    ensures HasRest(m, i, j, e)
  {
    assert HasArms(m, j, e);
  }

  lemma {:induction false} BuildNary(m: seq<Op>, op: ArithOp, rest: Exprs) returns (m1: seq<Op>)
    ensures Within(m, m1) && |m1| == |m| + SizeNary(op, rest) && KeptNary(m1, |m|, op, rest)
    ensures Straight(m) ==> Straight(m1)
    decreases rest, 0
  {
    m1 := m;
    if rest.Cons? {
      var sub := Subtracts(op, rest.head);
      var x := if sub then rest.head.e else rest.head;
      var a := BuildE(m, x);
      var b := Append(a, Arith(if sub then Sub else op));
      m1 := BuildNary(b, op, rest.tail);
      WithinTrans(a, b, m1);
      WithinTrans(m, a, m1);
      forall m2 | Within(m1, m2) ensures HasNary(m2, |m|, op, rest) {
        WithinTrans(a, m1, m2);
        OpKept(b, m1, m2, |a|, Arith(if sub then Sub else op));
        MakeNary(m2, |m|, op, rest, |a|, |b|);
      }
    }
  }

  lemma MakeNary(m: seq<Op>, i: int, op: ArithOp, rest: Exprs, j: int, k: int)
    requires rest.Cons? && k == j + 1
    requires
      var sub := Subtracts(op, rest.head);
      var x := if sub then rest.head.e else rest.head;
      j == i + SizeE(x) && HasE(m, i, x) && OpAt(m, j, Arith(if sub then Sub else op)) && HasNary(m, k, op, rest.tail)
    ensures HasNary(m, i, op, rest)
  {
  }

  lemma {:induction false} BuildJoin(m: seq<Op>, rest: Exprs, n: nat) returns (m1: seq<Op>)
    ensures Within(m, m1) && |m1| == |m| + SizeJoin(rest) && KeptJoin(m1, |m|, rest, n)
    ensures Straight(m) ==> Straight(m1)
    decreases rest, 0
  {
    if rest.Nil? {
      m1 := Append(m, CatN(n));
      forall m2 | Within(m1, m2) ensures HasJoin(m2, |m|, rest, n) { OpWithin(m1, m2, |m|, CatN(n)); }
    } else {
      var a := BuildE(m, rest.head);
      m1 := BuildJoin(a, rest.tail, n + 1);
      WithinTrans(m, a, m1);
      forall m2 | Within(m1, m2) ensures HasJoin(m2, |m|, rest, n) { WithinTrans(a, m1, m2); }
    }
  }

  lemma {:induction false} BuildProduct(m: seq<Op>, i: int, e: Expr) returns (m1: seq<Op>)
    requires e.Product?
    ensures Within(m, m1) && |m1| == |m| + SizeProduct(e.rest) && KeptRest(m1, i, |m|, e)
    ensures Straight(m) ==> Straight(m1)
    decreases e.rest, 1
  {
    var a := BuildFactors(m, e.rest);
    m1 := BuildDivisors(a, e.rest, false);
    WithinTrans(m, a, m1);
    forall m2 | Within(m1, m2) ensures HasRest(m2, i, |m|, e) { WithinTrans(a, m1, m2); }
  }

  lemma {:induction false} BuildFactors(m: seq<Op>, rest: Exprs) returns (m1: seq<Op>)
    ensures Within(m, m1) && |m1| == |m| + SizeFactors(rest) && KeptFactors(m1, |m|, rest)
    ensures Straight(m) ==> Straight(m1)
    decreases rest, 0
  {
    m1 := m;
    if rest.Cons? {
      if rest.head.Recip? {
        m1 := BuildFactors(m, rest.tail);
        forall m2 | Within(m1, m2) ensures HasFactors(m2, |m|, rest) { assert HasFactors(m2, |m|, rest.tail); }
      } else {
        var a := BuildE(m, rest.head);
        var b := Append(a, Arith(Mul));
        m1 := BuildFactors(b, rest.tail);
        WithinTrans(a, b, m1);
        WithinTrans(m, a, m1);
        forall m2 | Within(m1, m2) ensures HasFactors(m2, |m|, rest) {
          WithinTrans(a, m1, m2);
          OpKept(b, m1, m2, |a|, Arith(Mul));
        }
      }
    }
  }

  lemma {:induction false} BuildDivisors(m: seq<Op>, rest: Exprs, begun: bool) returns (m1: seq<Op>)
    ensures Within(m, m1) && |m1| == |m| + SizeDivisors(rest, begun) && KeptDivisors(m1, |m|, rest, begun)
    ensures Straight(m) ==> Straight(m1)
    decreases rest, 0
  {
    m1 := m;
    if rest.Nil? {
      if begun { m1 := Append(m, Arith(Div)); }
      forall m2 | Within(m1, m2) ensures HasDivisors(m2, |m|, rest, begun) { OpWithin(m1, m2, |m|, Arith(Div)); }
    } else if !rest.head.Recip? {
      m1 := BuildDivisors(m, rest.tail, begun);
      forall m2 | Within(m1, m2) ensures HasDivisors(m2, |m|, rest, begun) { assert HasDivisors(m2, |m|, rest.tail, begun); }
    } else {
      var a := BuildE(m, rest.head.e);
      var b := a;
      if begun { b := Append(a, Arith(Mul)); }
      m1 := BuildDivisors(b, rest.tail, true);
      WithinTrans(a, b, m1);
      WithinTrans(m, a, m1);
      forall m2 | Within(m1, m2) ensures HasDivisors(m2, |m|, rest, begun) {
        WithinTrans(a, m1, m2);
        OpKept(b, m1, m2, |a|, Arith(Mul));
      }
    }
  }

  lemma {:induction false} BuildAndOr(m: seq<Op>, and: bool, prev: Expr, rest: Exprs, end: int) returns (m1: seq<Op>)
    ensures Within(m, m1) && |m1| == |m| + SizeAndOr(prev, rest) && KeptAndOr(m1, |m|, and, prev, rest, end)
    ensures Straight(m) ==> Straight(m1)
    decreases rest, 0
  {
    m1 := m;
    if rest.Nil? {
      if Checks(prev) { m1 := Append(m, Bool1); }
      forall m2 | Within(m1, m2) ensures HasAndOr(m2, |m|, and, prev, rest, end) { OpWithin(m1, m2, |m|, Bool1); }
    } else {
      var a := Append(m, if and then And(end) else Or(end));
      var b := BuildE(a, rest.head);
      m1 := BuildAndOr(b, and, rest.head, rest.tail, end);
      WithinTrans(a, b, m1);
      WithinTrans(m, a, m1);
      forall m2 | Within(m1, m2) ensures HasAndOr(m2, |m|, and, prev, rest, end) {
        WithinTrans(b, m1, m2);
        OpKept(a, m1, m2, |m|, if and then And(end) else Or(end));
        MakeAndOr(m2, |m|, and, prev, rest, end, |b|);
      }
    }
  }

  lemma MakeAndOr(m: seq<Op>, i: int, and: bool, prev: Expr, rest: Exprs, end: int, k: int)
    requires rest.Cons? && k == i + 1 + SizeE(rest.head)
    requires OpAt(m, i, if and then And(end) else Or(end)) && HasE(m, i + 1, rest.head)
    requires HasAndOr(m, k, and, rest.head, rest.tail, end)
    ensures HasAndOr(m, i, and, prev, rest, end)
  {
  }

  lemma {:induction false} BuildIn(m: seq<Op>, list: Exprs, end: int) returns (m1: seq<Op>)
    ensures Within(m, m1) && |m1| == |m| + SizeIn(list) && KeptIn(m1, |m|, list, end)
    ensures Straight(m) ==> Straight(m1)
    decreases list, 0
  {
    m1 := m;
    if list.Cons? {
      var a := BuildE(m, list.head);
      var b := Append(a, if list.tail.Nil? then Compare2(Is) else InJump(end));
      m1 := BuildIn(b, list.tail, end);
      WithinTrans(a, b, m1);
      WithinTrans(m, a, m1);
      forall m2 | Within(m1, m2) ensures HasIn(m2, |m|, list, end) {
        WithinTrans(a, m1, m2);
        OpKept(b, m1, m2, |a|, if list.tail.Nil? then Compare2(Is) else InJump(end));
      }
    }
  }

  lemma {:induction false} BuildList(m: seq<Op>, list: Exprs) returns (m1: seq<Op>)
    ensures Within(m, m1) && |m1| == |m| + SizeList(list) && KeptList(m1, |m|, list)
    ensures Straight(m) ==> Straight(m1)
    decreases list
  {
    m1 := m;
    if list.Cons? {
      var a := BuildE(m, list.head);
      var b := Append(a, Pop);
      m1 := BuildList(b, list.tail);
      WithinTrans(a, b, m1);
      WithinTrans(m, a, m1);
      forall m2 | Within(m1, m2) ensures HasList(m2, |m|, list) {
        WithinTrans(a, m1, m2);
        OpKept(b, m1, m2, |a|, Pop);
      }
    }
  }

  // --------------------------------------------------------------- statements

  ghost predicate KeptTest(m: seq<Op>, i: int, cond: Option<Expr>, top: int) {
    forall m1 :: Within(m, m1) ==> HasTest(m1, i, cond, top)
  }

  ghost predicate KeptTests(m: seq<Op>, i: int, e: Expr, more: Exprs, body: int, after: int) {
    forall m1 :: Within(m, m1) ==> HasTests(m1, i, e, more, body, after)
  }

  ghost predicate KeptS(m: seq<Op>, i: int, s: Stmt, l: Labels) {
    forall m1 :: Within(m, m1) ==> HasS(m1, i, s, l)
  }

  ghost predicate KeptSS(m: seq<Op>, i: int, ss: Stmts, l: Labels) {
    forall m1 :: Within(m, m1) ==> HasSS(m1, i, ss, l)
  }

  ghost predicate KeptDefault(m: seq<Op>, i: int, default: Option<Stmts>, l: Labels) {
    forall m1 :: Within(m, m1) ==> HasDefault(m1, i, default, l)
  }

  ghost predicate KeptCases(m: seq<Op>, i: int, cases: Cases, end: int, l: Labels) {
    forall m1 :: Within(m, m1) ==> HasCases(m1, i, cases, end, l)
  }

  /** The labels are instructions. */
  predicate Aimed(l: Labels) {
    l.Loop? ==> l.brk >= 0 && l.cont.to >= 0 && (l.cont.Fwd? && l.cont.first.Some? ==> l.cont.first.value >= 0)
  }

  lemma {:induction false} FirstFrom(s: Stmt, i: int)
    ensures FirstS(s, i).Some? ==> FirstS(s, i).value >= i
    decreases s
  {
    match s
    case Block(body) => AllFirstFrom(body, i);
    case If(c, t) => FirstFrom(t, i + SizeE(c) + 1);
    case IfElse(c, t, f) =>
      FirstFrom(t, i + SizeE(c) + 1);
      FirstFrom(f, i + SizeE(c) + 1 + SizeS(t) + 1);
    case Switch(e, cases, default) =>
      CasesFirstFrom(cases, i + SizeE(e));
      if default.Some? { AllFirstFrom(default.value, i + SizeE(e) + SizeCases(cases) + 1); }
    case _ =>
  }

  lemma {:induction false} AllFirstFrom(ss: Stmts, i: int)
    ensures FirstSS(ss, i).Some? ==> FirstSS(ss, i).value >= i
    decreases ss
  {
    if ss.Seq? {
      FirstFrom(ss.first, i);
      AllFirstFrom(ss.rest, i + SizeS(ss.first));
    }
  }

  lemma {:induction false} CasesFirstFrom(cases: Cases, i: int)
    ensures FirstCases(cases, i).Some? ==> FirstCases(cases, i).value >= i
    decreases cases
  {
    if cases.Case? {
      var j := i + SizeTests(cases.e, cases.more);
      AllFirstFrom(cases.body, j);
      CasesFirstFrom(cases.rest, j + SizeSS(cases.body) + 1);
    }
  }

  lemma {:induction false} BuildS(m: seq<Op>, s: Stmt, l: Labels) returns (m1: seq<Op>)
    ensures Within(m, m1) && |m1| == |m| + SizeS(s) && KeptS(m1, |m|, s, l)
    ensures Straight(m) && Sane(s) && Aimed(l) && Clear(l, |m|, Leading(s)) ==> Straight(m1)
    decreases s, 2
  {
    if s.Block? {
      m1 := BuildBlock(m, s, l);
    } else if s.If? {
      m1 := BuildIf(m, s, l);
    } else if s.IfElse? {
      m1 := BuildIfElse(m, s, l);
    } else if s.Switch? {
      m1 := BuildSwitch(m, s, l);
    } else if IsLoop(s) {
      m1 := BuildLoop(m, s, l);
    } else {
      m1 := BuildSimple(m, s, l);
    }
  }

  lemma {:induction false} BuildBlock(m: seq<Op>, s: Stmt, l: Labels) returns (m1: seq<Op>)
    requires s.Block?
    ensures Within(m, m1) && |m1| == |m| + SizeS(s) && KeptS(m1, |m|, s, l)
    ensures Straight(m) && Sane(s) && Aimed(l) && Clear(l, |m|, Leading(s)) ==> Straight(m1)
    decreases s, 1
  {
    m1 := BuildSS(m, s.body, l);
    forall m2 | Within(m1, m2) ensures HasS(m2, |m|, s, l) { assert HasSS(m2, |m|, s.body, l); }
  }

  lemma BuildSimple(m: seq<Op>, s: Stmt, l: Labels) returns (m1: seq<Op>)
    requires s.ExprStmt? || s.Return? || s.ReturnNil? || s.Break? || s.Continue?
    ensures Within(m, m1) && |m1| == |m| + SizeS(s) && KeptS(m1, |m|, s, l)
    ensures Straight(m) && Sane(s) && Aimed(l) && Clear(l, |m|, Leading(s)) ==> Straight(m1)
  {
    if s.ExprStmt? && s.e.Const? {
      m1 := m;
    } else if s.ExprStmt? || s.Return? {
      m1 := BuildValue(m, s, l);
    } else {
      var op := if s.ReturnNil? then RetNil else if s.Continue? then Jump(ContTarget(l, |m|)) else Jump(if l.Loop? then l.brk else 0);
      m1 := Append(m, op);
      forall m2 | Within(m1, m2) ensures HasS(m2, |m|, s, l) { OpWithin(m1, m2, |m|, op); }
    }
  }

  lemma BuildValue(m: seq<Op>, s: Stmt, l: Labels) returns (m1: seq<Op>)
    requires s.Return? || (s.ExprStmt? && !s.e.Const?)
    ensures Within(m, m1) && |m1| == |m| + SizeS(s) && KeptS(m1, |m|, s, l)
    ensures Straight(m) ==> Straight(m1)
  {
    var a := BuildE(m, s.e);
    m1 := Append(a, if s.Return? then Ret else Pop);
    WithinTrans(m, a, m1);
    forall m2 | Within(m1, m2) ensures HasS(m2, |m|, s, l) {
      WithinTrans(a, m1, m2);
      OpWithin(m1, m2, |a|, if s.Return? then Ret else Pop);
    }
  }

  lemma {:induction false} BuildIf(m: seq<Op>, s: Stmt, l: Labels) returns (m1: seq<Op>)
    requires s.If?
    ensures Within(m, m1) && |m1| == |m| + SizeS(s) && KeptS(m1, |m|, s, l)
    ensures Straight(m) && Sane(s) && Aimed(l) && Clear(l, |m|, false) ==> Straight(m1)
    decreases s, 1
  {
    var a := BuildE(m, s.c);
    var b := Append(a, JumpFalse(|a| + 1 + SizeS(s.t)));
    m1 := BuildS(b, s.t, l);
    WithinTrans(a, b, m1);
    WithinTrans(m, a, m1);
    forall m2 | Within(m1, m2) ensures HasS(m2, |m|, s, l) {
      WithinTrans(a, m1, m2);
      OpKept(b, m1, m2, |a|, JumpFalse(|a| + 1 + SizeS(s.t)));
      MakeIf(m2, |m|, s, l, |a|, |b|);
    }
  }

  lemma MakeIf(m: seq<Op>, i: int, s: Stmt, l: Labels, j: int, k: int)
    requires s.If? && j == i + SizeE(s.c) && k == j + 1
    requires HasE(m, i, s.c) && OpAt(m, j, JumpFalse(j + 1 + SizeS(s.t))) && HasS(m, k, s.t, l)
    ensures HasS(m, i, s, l)
  {
  }

  lemma MakeIfElse(m: seq<Op>, i: int, c: Expr, t: Stmt, f: Stmt, l: Labels, j: int, k: int)
    requires j == i + SizeE(c) + 1 && k == j + SizeS(t) + 1
    requires HasE(m, i, c) && OpAt(m, j - 1, JumpFalse(k)) && HasS(m, j, t, l)
    requires OpAt(m, k - 1, Jump(k + SizeS(f))) && HasS(m, k, f, Seen(l, FirstS(t, j)))
    ensures HasS(m, i, IfElse(c, t, f), l)
  {
    MakeBranches(m, i, IfElse(c, t, f), l, j, k);
    Parts(m, i, IfElse(c, t, f), l);
  }

  lemma MakeBranches(m: seq<Op>, i: int, s: Stmt, l: Labels, j: int, k: int)
    requires s.IfElse? && j == i + SizeE(s.c) + 1 && k == j + SizeS(s.t) + 1
    requires HasE(m, i, s.c) && OpAt(m, j - 1, JumpFalse(k)) && HasS(m, j, s.t, l)
    requires OpAt(m, k - 1, Jump(k + SizeS(s.f))) && HasS(m, k, s.f, Seen(l, FirstS(s.t, j)))
    ensures HasIfElse(m, i, s, l)
  {
    assert k == i + SizeE(s.c) + 1 + SizeS(s.t) + 1;
    assert Seen(l, FirstS(s.t, j)) == Seen(l, FirstS(s.t, i + SizeE(s.c) + 1));
  }

  lemma {:induction false} BuildIfElse(m: seq<Op>, s: Stmt, l: Labels) returns (m1: seq<Op>)
    requires s.IfElse?
    ensures Within(m, m1) && |m1| == |m| + SizeS(s) && KeptS(m1, |m|, s, l)
    ensures Straight(m) && Sane(s) && Aimed(l) && Clear(l, |m|, false) ==> Straight(m1)
    decreases s, 1
  {
    var a := BuildE(m, s.c);
    var k := |a| + 1 + SizeS(s.t) + 1;
    var b := Append(a, JumpFalse(k));
    var op := Jump(k + SizeS(s.f));
    m1 := BuildBoth(b, s, op, l);
    WithinTrans(a, b, m1);
    WithinTrans(m, a, m1);
    forall m2 | Within(m1, m2) ensures HasS(m2, |m|, s, l) {
      WithinTrans(a, m1, m2);
      OpKept(b, m1, m2, |a|, JumpFalse(k));
      OpWithin(m1, m2, k - 1, op);
      MakeIfElse(m2, |m|, s.c, s.t, s.f, l, |b|, k);
    }
  }

  /** Both parts of an if, with the jump between them. */
  lemma {:induction false} BuildBoth(m: seq<Op>, s: Stmt, op: Op, l: Labels) returns (m1: seq<Op>)
    requires s.IfElse?
    ensures Within(m, m1) && |m1| == |m| + SizeS(s.t) + 1 + SizeS(s.f)
    ensures Straight(m) && Sane(s) && op != Jump(Nowhere) && Aimed(l) && Clear(l, |m|, true) ==> Straight(m1)
    ensures KeptS(m1, |m|, s.t, l) && OpAt(m1, |m| + SizeS(s.t), op)
    ensures KeptS(m1, |m| + SizeS(s.t) + 1, s.f, Seen(l, FirstS(s.t, |m|)))
    decreases s, 0
  {
    var c := BuildS(m, s.t, l);
    var d := Append(c, op);
    m1 := BuildS(d, s.f, Seen(l, FirstS(s.t, |m|)));
    FirstFrom(s.t, |m|);
    WithinTrans(c, d, m1);
    WithinTrans(m, c, m1);
    OpWithin(d, m1, |c|, op);
    forall m2 | Within(m1, m2) ensures HasS(m2, |m|, s.t, l) { WithinTrans(c, m1, m2); }
  }

  lemma MakeSwitch(m: seq<Op>, i: int, s: Stmt, l: Labels, j: int, k: int, end: int)
    requires s.Switch? && j == i + SizeE(s.e) && k == j + SizeCases(s.cases) && end == i + SizeS(s)
    requires HasE(m, i, s.e) && HasCases(m, j, s.cases, end, l) && HasDefault(m, k, s.default, Seen(l, FirstCases(s.cases, j)))
    ensures HasS(m, i, s, l)
  {
    assert k == i + SizeE(s.e) + SizeCases(s.cases);
    assert Seen(l, FirstCases(s.cases, j)) == Seen(l, FirstCases(s.cases, i + SizeE(s.e)));
    assert HasSwitch(m, i, s, l);
    Parts(m, i, s, l);
  }

  lemma {:induction false} BuildSwitch(m: seq<Op>, s: Stmt, l: Labels) returns (m1: seq<Op>)
    requires s.Switch?
    ensures Within(m, m1) && |m1| == |m| + SizeS(s) && KeptS(m1, |m|, s, l)
    ensures Straight(m) && Sane(s) && Aimed(l) && Clear(l, |m|, false) ==> Straight(m1)
    decreases s, 1
  {
    var a := BuildE(m, s.e);
    var b := BuildCases(a, s.cases, |m| + SizeS(s), l);
    m1 := BuildDefault(b, s.default, Seen(l, FirstCases(s.cases, |a|)));
    CasesFirstFrom(s.cases, |a|);
    WithinTrans(a, b, m1);
    WithinTrans(m, a, m1);
    KeepSwitch(a, b, m1, |m|, s, l);
  }

  lemma KeepSwitch(a: seq<Op>, b: seq<Op>, m1: seq<Op>, i: int, s: Stmt, l: Labels)
    requires s.Switch? && Within(a, m1) && Within(b, m1) && |a| == i + SizeE(s.e) && |b| == |a| + SizeCases(s.cases)
    requires KeptE(a, i, s.e) && KeptCases(b, |a|, s.cases, i + SizeS(s), l)
    requires KeptDefault(m1, |b|, s.default, Seen(l, FirstCases(s.cases, |a|)))
    ensures KeptS(m1, i, s, l)
  {
    forall m2 | Within(m1, m2) ensures HasS(m2, i, s, l) {
      WithinTrans(a, m1, m2);
      WithinTrans(b, m1, m2);
      MakeSwitch(m2, i, s, l, |a|, |b|, i + SizeS(s));
    }
  }

  lemma MakeLoop(m: seq<Op>, i: int, s: Stmt, l: Labels, y: Layout)
    requires IsLoop(s) && y == LayoutOf(s, i)
    requires HasS(m, y.top, y.b, Loop(y.end, y.cont)) && HasList(m, y.inc0, y.inc) && HasTest(m, y.test, y.cond, y.top)
    requires s.While? ==> OpAt(m, i, Jump(y.test))
    requires s.For? ==> HasList(m, i, s.init) && (s.cond.Some? ==> OpAt(m, i + SizeList(s.init), Jump(y.test)))
    ensures HasS(m, i, s, l)
  {
    assert HasLoop(m, i, s);
    Parts(m, i, s, l);
  }

  lemma {:induction false} BuildLoop(m: seq<Op>, s: Stmt, l: Labels) returns (m1: seq<Op>)
    requires IsLoop(s)
    ensures Within(m, m1) && |m1| == |m| + SizeS(s) && KeptS(m1, |m|, s, l)
    ensures Straight(m) && Sane(s) ==> Straight(m1)
    decreases s, 1
  {
    var y := LayoutOf(s, |m|);
    var a := BuildEntry(m, s, y);
    m1 := BuildRound(a, y);
    WithinTrans(m, a, m1);
    forall m2 | Within(m1, m2) ensures HasS(m2, |m|, s, l) {
      WithinTrans(a, m1, m2);
      OpKept(a, m1, m2, |m|, Jump(y.test));
      if s.For? { OpKept(a, m1, m2, |m| + SizeList(s.init), Jump(y.test)); }
      MakeLoop(m2, |m|, s, l, y);
    }
  }

  /** The body of a loop, its increment and its test. */
  lemma {:induction false} BuildRound(m: seq<Op>, y: Layout) returns (m1: seq<Op>)
    requires |m| == y.top && y.inc0 == y.top + SizeS(y.b) && y.test == y.inc0 + SizeList(y.inc) && y.end == y.test + SizeTest(y.cond)
    ensures Within(m, m1) && |m1| == y.end && KeptS(m1, y.top, y.b, Loop(y.end, y.cont))
    ensures Straight(m) && Sane(y.b) && Aimed(Loop(y.end, y.cont)) && y.top >= 0 && Clear(Loop(y.end, y.cont), y.top, Leading(y.b)) ==> Straight(m1)
    ensures KeptList(m1, y.inc0, y.inc) && KeptTest(m1, y.test, y.cond, y.top)
    decreases y.b, 3
  {
    var b := BuildS(m, y.b, Loop(y.end, y.cont));
    var c := BuildList(b, y.inc);
    m1 := BuildTest(c, y.cond, y.top);
    WithinTrans(b, c, m1);
    WithinTrans(m, b, m1);
    forall m2 | Within(m1, m2) ensures HasS(m2, y.top, y.b, Loop(y.end, y.cont)) { WithinTrans(b, m1, m2); }
    forall m2 | Within(m1, m2) ensures HasList(m2, y.inc0, y.inc) { WithinTrans(c, m1, m2); }
  }

  /** What stands before the body of a loop. */
  lemma BuildEntry(m: seq<Op>, s: Stmt, y: Layout) returns (m1: seq<Op>)
    requires IsLoop(s) && y == LayoutOf(s, |m|)
    ensures Within(m, m1) && |m1| == y.top
    ensures Straight(m) ==> Straight(m1)
    ensures s.While? ==> OpAt(m1, |m|, Jump(y.test))
    ensures s.For? ==> KeptList(m1, |m|, s.init) && (s.cond.Some? ==> OpAt(m1, |m| + SizeList(s.init), Jump(y.test)))
  {
    m1 := m;
    if s.While? {
      m1 := Append(m, Jump(y.test));
    } else if s.For? {
      m1 := BuildList(m, s.init);
      if s.cond.Some? {
        var a := m1;
        m1 := Append(a, Jump(y.test));
        WithinTrans(m, a, m1);
        forall m2 | Within(m1, m2) ensures HasList(m2, |m|, s.init) { WithinTrans(a, m1, m2); }
      }
    }
  }

  lemma BuildTest(m: seq<Op>, cond: Option<Expr>, top: int) returns (m1: seq<Op>)
    ensures Within(m, m1) && |m1| == |m| + SizeTest(cond) && KeptTest(m1, |m|, cond, top)
    ensures Straight(m) && top >= 0 ==> Straight(m1)
  {
    if cond.None? {
      m1 := Append(m, Jump(top));
      forall m2 | Within(m1, m2) ensures HasTest(m2, |m|, cond, top) { OpWithin(m1, m2, |m|, Jump(top)); }
    } else {
      var a := BuildE(m, cond.value);
      m1 := Append(a, JumpTrue(top));
      WithinTrans(m, a, m1);
      forall m2 | Within(m1, m2) ensures HasTest(m2, |m|, cond, top) {
        WithinTrans(a, m1, m2);
        OpWithin(m1, m2, |a|, JumpTrue(top));
      }
    }
  }

  lemma {:induction false} BuildSS(m: seq<Op>, ss: Stmts, l: Labels) returns (m1: seq<Op>)
    ensures Within(m, m1) && |m1| == |m| + SizeSS(ss) && KeptSS(m1, |m|, ss, l)
    ensures Straight(m) && SaneAll(ss) && Aimed(l) && Clear(l, |m|, LeadingAll(ss)) ==> Straight(m1)
    decreases ss, 1
  {
    m1 := m;
    if ss.Seq? {
      var a := BuildS(m, ss.first, l);
      m1 := BuildSS(a, ss.rest, Seen(l, FirstS(ss.first, |m|)));
      FirstFrom(ss.first, |m|);
      WithinTrans(m, a, m1);
      forall m2 | Within(m1, m2) ensures HasSS(m2, |m|, ss, l) { WithinTrans(a, m1, m2); }
    }
  }

  lemma {:induction false} BuildDefault(m: seq<Op>, default: Option<Stmts>, l: Labels) returns (m1: seq<Op>)
    ensures Within(m, m1) && |m1| == |m| + SizeDefault(default) && KeptDefault(m1, |m|, default, l)
    ensures Straight(m) && (default.Some? ==> SaneAll(default.value)) && Aimed(l) && Clear(l, |m|, false) ==> Straight(m1)
    decreases default, 2
  {
    var a := Append(m, Pop);
    if default.Some? {
      m1 := BuildSS(a, default.value, l);
    } else {
      m1 := BuildThrow(a);
    }
    WithinTrans(m, a, m1);
    forall m2 | Within(m1, m2) ensures HasDefault(m2, |m|, default, l) {
      OpKept(a, m1, m2, |m|, Pop);
      OpWithin(m1, m2, |a|, Push(Unhandled));
      OpWithin(m1, m2, |a| + 1, Throw);
    }
  }

  lemma BuildThrow(m: seq<Op>) returns (m1: seq<Op>)
    ensures Within(m, m1) && |m1| == |m| + 2 && OpAt(m1, |m|, Push(Unhandled)) && OpAt(m1, |m| + 1, Throw)
    ensures Straight(m) ==> Straight(m1)
  {
    var a := Append(m, Push(Unhandled));
    m1 := Append(a, Throw);
    WithinTrans(m, a, m1);
    OpWithin(a, m1, |m|, Push(Unhandled));
  }

  lemma {:induction false} BuildTests(m: seq<Op>, e: Expr, more: Exprs, body: int, after: int) returns (m1: seq<Op>)
    ensures Within(m, m1) && |m1| == |m| + SizeTests(e, more) && KeptTests(m1, |m|, e, more, body, after)
    ensures Straight(m) ==> Straight(m1)
    decreases more
  {
    var a := BuildE(m, e);
    var b := Append(a, if more.Nil? then JumpIsnt(after) else JumpIs(body));
    m1 := b;
    if more.Cons? { m1 := BuildTests(b, more.head, more.tail, body, after); }
    WithinTrans(a, b, m1);
    WithinTrans(m, a, m1);
    forall m2 | Within(m1, m2) ensures HasTests(m2, |m|, e, more, body, after) {
      WithinTrans(a, m1, m2);
      OpKept(b, m1, m2, |a|, if more.Nil? then JumpIsnt(after) else JumpIs(body));
      MakeTests(m2, |m|, e, more, body, after, |a|, |b|);
    }
  }

  lemma MakeTests(m: seq<Op>, i: int, e: Expr, more: Exprs, body: int, after: int, j: int, k: int)
    requires j == i + SizeE(e) && k == j + 1 && HasE(m, i, e) && OpAt(m, j, if more.Nil? then JumpIsnt(after) else JumpIs(body))
    requires more.Cons? ==> HasTests(m, k, more.head, more.tail, body, after)
    ensures HasTests(m, i, e, more, body, after)
  {
  }

  lemma MakeCases(m: seq<Op>, i: int, cases: Cases, end: int, l: Labels, j: int, k: int)
    requires cases.Case? && j == i + SizeTests(cases.e, cases.more) && k == j + SizeSS(cases.body) + 1
    requires HasTests(m, i, cases.e, cases.more, j, k) && HasSS(m, j, cases.body, l) && OpAt(m, k - 1, Jump(end))
    requires HasCases(m, k, cases.rest, end, Seen(l, FirstSS(cases.body, j)))
    ensures HasCases(m, i, cases, end, l)
  {
    MakeCase(m, i, cases, end, l, j, k);
    CaseParts(m, i, cases, end, l);
  }

  lemma MakeCase(m: seq<Op>, i: int, cases: Cases, end: int, l: Labels, j: int, k: int)
    requires cases.Case? && j == i + SizeTests(cases.e, cases.more) && k == j + SizeSS(cases.body) + 1
    requires HasTests(m, i, cases.e, cases.more, j, k) && HasSS(m, j, cases.body, l) && OpAt(m, k - 1, Jump(end))
    requires HasCases(m, k, cases.rest, end, Seen(l, FirstSS(cases.body, j)))
    ensures HasCase(m, i, cases, end, l)
  {
    assert k == i + SizeTests(cases.e, cases.more) + SizeSS(cases.body) + 1;
    assert Seen(l, FirstSS(cases.body, j)) == Seen(l, FirstSS(cases.body, i + SizeTests(cases.e, cases.more)));
  }

  lemma {:induction false} BuildCases(m: seq<Op>, cases: Cases, end: int, l: Labels) returns (m1: seq<Op>)
    ensures Within(m, m1) && |m1| == |m| + SizeCases(cases) && KeptCases(m1, |m|, cases, end, l)
    ensures Straight(m) && SaneCases(cases) && end >= 0 && Aimed(l) && Clear(l, |m|, false) ==> Straight(m1)
    decreases cases, 1
  {
    m1 := m;
    if cases.Case? {
      var j := |m| + SizeTests(cases.e, cases.more);
      var k := j + SizeSS(cases.body) + 1;
      var a := BuildCase(m, cases, end, l, j, k);
      m1 := BuildCases(a, cases.rest, end, Seen(l, FirstSS(cases.body, j)));
      AllFirstFrom(cases.body, j);
      WithinTrans(m, a, m1);
      forall m2 | Within(m1, m2) ensures HasCases(m2, |m|, cases, end, l) {
        WithinTrans(a, m1, m2);
        OpKept(a, m1, m2, k - 1, Jump(end));
        MakeCases(m2, |m|, cases, end, l, j, k);
      }
    }
  }

  lemma {:induction false} BuildCase(m: seq<Op>, cases: Cases, end: int, l: Labels, j: int, k: int) returns (m1: seq<Op>)
    requires cases.Case? && j == |m| + SizeTests(cases.e, cases.more) && k == j + SizeSS(cases.body) + 1
    ensures Within(m, m1) && |m1| == k && OpAt(m1, k - 1, Jump(end))
    ensures Straight(m) && SaneAll(cases.body) && end >= 0 && Aimed(l) && Clear(l, |m|, false) ==> Straight(m1)
    ensures KeptTests(m1, |m|, cases.e, cases.more, j, k) && KeptSS(m1, j, cases.body, l)
    decreases cases, 0
  {
    var a := BuildTests(m, cases.e, cases.more, j, k);
    var b := BuildSS(a, cases.body, l);
    m1 := Append(b, Jump(end));
    WithinTrans(a, b, m1);
    WithinTrans(m, a, m1);
    forall m2 | Within(m1, m2) ensures HasTests(m2, |m|, cases.e, cases.more, j, k) { WithinTrans(a, m1, m2); }
    forall m2 | Within(m1, m2) ensures HasSS(m2, j, cases.body, l) { WithinTrans(b, m1, m2); }
  }

  // ---------------------------------------------------------------- functions

  lemma BuildTop(m: seq<Op>, s: Stmt, last: bool) returns (m1: seq<Op>)
    ensures Within(m, m1) && |m1| == |m| + SizeTop(s, last) && (Straight(m) && Sane(s) ==> Straight(m1))
    ensures forall m2 :: Within(m1, m2) ==> HasTop(m2, |m|, s, last)
  {
    if last && (s.ExprStmt? || s.Return?) {
      m1 := BuildE(m, s.e);
    } else if last && s.ReturnNil? {
      m1 := m;
    } else {
      m1 := BuildS(m, s, NoLoop);
    }
    forall m2 | Within(m1, m2) ensures HasTop(m2, |m|, s, last) {
      if last && (s.ExprStmt? || s.Return?) { assert HasE(m2, |m|, s.e); }
      else if !(last && s.ReturnNil?) { assert HasS(m2, |m|, s, NoLoop); }
    }
  }

  lemma {:induction false} BuildF(m: seq<Op>, body: Stmts) returns (m1: seq<Op>)
    ensures Within(m, m1) && HasF(m1, |m|, body)
    ensures Straight(m) && SaneF(body) ==> Straight(m1)
    decreases body
  {
    m1 := m;
    if body.Seq? {
      var a := BuildTop(m, body.first, body.rest.End?);
      m1 := BuildF(a, body.rest);
      WithinTrans(m, a, m1);
    }
  }
}
