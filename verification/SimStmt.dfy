/**
  The code of a statement does what the statement does: it runs to the
  instruction after it, or to where break or continue goes, or ends the function,
  with the stack as it was and the same locals.  A statement that does not end
  keeps the machine running for ever.
  */
module SimStmt {
  import opened Ast
  import opened Ops
  import opened LayoutExpr
  import opened LayoutStmt
  import opened SimExpr
  import opened Seal

  /** Still running after n instructions. */
  ghost predicate Lasts(p: Prims, m: seq<Op>, s: State, n: nat) {
    exists t: State :: t.At? && Reaches(p, m, s, n, t)
  }

  /** Where a statement with outcome o leaves the machine, if its code ends at j. */
  function Left(o: Outcome, j: int, l: Labels, stk: seq<Value>): State
    requires !o.OutOfFuel?
  {
    match o
    case Next(env) => At(j, stk, env)
    case Broke(env) => if l.NoLoop? then Stuck else At(l.brk, stk, env)
    case Continued(env) => if l.NoLoop? then Stuck else At(l.cont.to, stk, env)
    case Returned(v, env) => Done(v, env)
    case Raised(x, env) => Panic(x, env)
  }

  /** From s the machine does what outcome o says. */
  ghost predicate Ends(p: Prims, m: seq<Op>, s: State, j: int, l: Labels, stk: seq<Value>, o: Outcome, fuel: nat) {
    var sealed := forall u: int {:trigger Look(u)} :: Look(u) ==>
      if o.OutOfFuel? then Lasts(p, m, s, fuel)
      else Reaches(p, m, s, if o.Continued? then 1 else 0, Left(o, j, l, stk));
    sealed
  }

  lemma EndsOpen(p: Prims, m: seq<Op>, s: State, j: int, l: Labels, stk: seq<Value>, o: Outcome, fuel: nat)
    ensures o.OutOfFuel? ==> (Ends(p, m, s, j, l, stk, o, fuel) <==> Lasts(p, m, s, fuel))
    ensures !o.OutOfFuel? ==> (Ends(p, m, s, j, l, stk, o, fuel) <==> Reaches(p, m, s, if o.Continued? then 1 else 0, Left(o, j, l, stk)))
  {
    assert Look(0);
  }

  lemma EndsNext(p: Prims, m: seq<Op>, s: State, j: int, l: Labels, stk: seq<Value>, env: Env, fuel: nat)
    ensures Ends(p, m, s, j, l, stk, Next(env), fuel) <==> Reaches(p, m, s, 0, At(j, stk, env))
  {
    EndsOpen(p, m, s, j, l, stk, Next(env), fuel);
  }

  lemma EndsRaised(p: Prims, m: seq<Op>, s: State, j: int, l: Labels, stk: seq<Value>, x: Error, env: Env, fuel: nat)
    ensures Ends(p, m, s, j, l, stk, Raised(x, env), fuel) <==> Reaches(p, m, s, 0, Panic(x, env))
  {
    EndsOpen(p, m, s, j, l, stk, Raised(x, env), fuel);
  }

  /** Where the code ends matters only to an outcome that goes on, and the labels only to one that uses them. */
  lemma EndsElsewhere(p: Prims, m: seq<Op>, s: State, j: int, l: Labels, k: int, l1: Labels, stk: seq<Value>, o: Outcome, fuel: nat)
    requires !o.Next? && (o.Broke? || o.Continued? ==> l == l1)
    ensures Ends(p, m, s, j, l, stk, o, fuel) <==> Ends(p, m, s, k, l1, stk, o, fuel)
  {
    EndsOpen(p, m, s, j, l, stk, o, fuel);
    EndsOpen(p, m, s, k, l1, stk, o, fuel);
  }

  lemma LastsAfter(p: Prims, m: seq<Op>, s: State, a: nat, s1: State, n: nat)
    requires Reaches(p, m, s, a, s1) && Lasts(p, m, s1, n)
    ensures Lasts(p, m, s, a + n)
  {
    var t: State :| t.At? && Reaches(p, m, s1, n, t);
    RunOn(p, m, s, a, s1, n, t);
  }

  /** What is done from s1 is done from a state that reaches s1. */
  lemma EndsAfter(p: Prims, m: seq<Op>, s: State, s1: State, j: int, l: Labels, stk: seq<Value>, o: Outcome, fuel: nat)
    requires Reaches(p, m, s, 0, s1) && Ends(p, m, s1, j, l, stk, o, fuel)
    ensures Ends(p, m, s, j, l, stk, o, fuel)
  {
    EndsOpen(p, m, s, j, l, stk, o, fuel);
    EndsOpen(p, m, s1, j, l, stk, o, fuel);
    if o.OutOfFuel? {
      LastsAfter(p, m, s, 0, s1, fuel);
    } else {
      RunOn(p, m, s, 0, s1, if o.Continued? then 1 else 0, Left(o, j, l, stk));
    }
  }

  /** A statement followed by a jump to the end of a larger one. */
  lemma EndsJump(p: Prims, m: seq<Op>, s: State, j: int, end: int, l: Labels, stk: seq<Value>, o: Outcome, fuel: nat)
    requires Ends(p, m, s, j, l, stk, o, fuel) && OpAt(m, j, Jump(end))
    ensures Ends(p, m, s, end, l, stk, o, fuel)
  {
    if o.Next? {
      EndsNext(p, m, s, j, l, stk, o.env, fuel);
      EndsNext(p, m, s, end, l, stk, o.env, fuel);
      RunOneMore(p, m, s, j, stk, o.env, Jump(end));
      Fewer(p, m, s, 1, At(end, stk, o.env), 0);
    } else {
      EndsElsewhere(p, m, s, j, l, end, l, stk, o, fuel);
    }
  }

  /** The labels a statement sees name the same places after a first continue. */
  lemma EndsSeen(p: Prims, m: seq<Op>, s: State, j: int, l: Labels, first: Option<int>, stk: seq<Value>, o: Outcome, fuel: nat)
    requires Ends(p, m, s, j, Seen(l, first), stk, o, fuel)
    ensures Ends(p, m, s, j, l, stk, o, fuel)
  {
    EndsOpen(p, m, s, j, l, stk, o, fuel);
    EndsOpen(p, m, s, j, Seen(l, first), stk, o, fuel);
  }

  /** An expression evaluated for its effect, and what follows from its result. */
  lemma EndsEffect(p: Prims, m: seq<Op>, s: State, j: int, l: Labels, stk: seq<Value>, r: Result, fuel: nat)
    requires Reaches(p, m, s, 0, Effect(r, j, stk))
    ensures Ends(p, m, s, j, l, stk, if r.Err? then Raised(r.error, r.env) else Next(r.env), fuel)
  {
    EndsOpen(p, m, s, j, l, stk, if r.Err? then Raised(r.error, r.env) else Next(r.env), fuel);
  }

  // -------------------------------------------------------------- conditions

  /** The end of a test: where it goes, in one instruction or more. */
  ghost predicate Tests(p: Prims, m: seq<Op>, s: State, r: Result, yes: int, no: int, stk: seq<Value>)
    requires r.Val? ==> r.v.Bool?
  {
    var all :=
      if r.Err? then Reaches(p, m, s, 0, Panic(r.error, r.env))
      else Reaches(p, m, s, 1, At(if r.v.b then yes else no, stk, r.env));
    all
  }

  lemma SimTest(p: Prims, m: seq<Op>, i: int, cond: Option<Expr>, top: int, stk: seq<Value>, env: Env)
    requires HasTest(m, i, cond, top)
    ensures Tests(p, m, At(i, stk, env), Test(p, cond, env), top, i + SizeTest(cond), stk)
  {
    if cond.Some? { TestParts(m, i, cond, top); }
    var s := At(i, stk, env);
    if cond.None? {
      RunOne(p, m, i, stk, env, Jump(top));
    } else {
      SimE(p, m, cond.value, i, stk, env);
      StepBranch(p, m, s, Eval(p, cond.value, env), i + SizeE(cond.value), stk, true, top);
    }
  }

  /** JumpTrue or JumpFalse on a computed value. */
  lemma StepBranch(p: Prims, m: seq<Op>, s: State, r: Result, i: int, stk: seq<Value>, on: bool, to: int)
    requires OpAt(m, i, if on then JumpTrue(to) else JumpFalse(to))
    requires Reaches(p, m, s, 0, Pushed(r, i, stk))
    ensures r.Err? ==> Reaches(p, m, s, 0, Panic(r.error, r.env))
    ensures r.Val? && !r.v.Bool? ==> Reaches(p, m, s, 0, Panic(NeedsBool, r.env))
    ensures r.Val? && r.v.Bool? ==> Reaches(p, m, s, 1, At(if r.v.b == on then to else i + 1, stk, r.env))
  {
    if r.Val? {
      StackTop(stk, r.v);
      var op := if on then JumpTrue(to) else JumpFalse(to);
      RunOneMore(p, m, s, i, stk + [r.v], r.env, op);
      Fewer(p, m, s, 1, Do(p, op, i, stk + [r.v], r.env), 0);
    }
  }

  /** The condition of an if. */
  lemma SimIfTest(p: Prims, m: seq<Op>, i: int, c: Expr, no: int, stk: seq<Value>, env: Env)
    requires HasE(m, i, c) && OpAt(m, i + SizeE(c), JumpFalse(no))
    ensures Tests(p, m, At(i, stk, env), Test(p, Some(c), env), i + SizeE(c) + 1, no, stk)
  {
    SimE(p, m, c, i, stk, env);
    StepBranch(p, m, At(i, stk, env), Eval(p, c, env), i + SizeE(c), stk, false, no);
  }

  // -------------------------------------------------------------- statements

  /** The main result for statements. */
  lemma {:induction false} SimS(p: Prims, m: seq<Op>, s: Stmt, i: int, end: int, l: Labels, stk: seq<Value>, env: Env, fuel: nat)
    requires HasS(m, i, s, l) && Sound(m, l) && Placed(s, l.Loop?) && end == i + SizeS(s)
    ensures Ends(p, m, At(i, stk, env), end, l, stk, Exec(p, s, env, fuel), fuel)
    decreases fuel, s, 4
  {
    if s.Block? { BlockParts(m, i, s, l); }
    if s.Block? {
      SimSS(p, m, s.body, i, end, l, stk, env, fuel);
    } else if s.If? {
      SimIf(p, m, s, i, end, l, stk, env, fuel);
    } else if s.IfElse? {
      SimIfElse(p, m, s, i, end, l, stk, env, fuel);
    } else if s.Switch? {
      SimSwitch(p, m, s, i, end, l, stk, env, fuel);
    } else if IsLoop(s) {
      SimLoop(p, m, s, i, end, l, stk, env, fuel);
    } else {
      SimSimple(p, m, s, i, end, l, stk, env, fuel);
    }
  }

  predicate Simple(s: Stmt) { s.ExprStmt? || s.Return? || s.ReturnNil? || s.Break? || s.Continue? }

  lemma SimSimple(p: Prims, m: seq<Op>, s: Stmt, i: int, end: int, l: Labels, stk: seq<Value>, env: Env, fuel: nat)
    requires Simple(s) && HasS(m, i, s, l) && Sound(m, l) && Placed(s, l.Loop?) && end == i + SizeS(s)
    ensures Ends(p, m, At(i, stk, env), end, l, stk, Exec(p, s, env, fuel), fuel)
  {
    if s.ExprStmt? || s.Return? {
      SimValueStmt(p, m, s, i, end, l, stk, env, fuel);
    } else {
      JumpParts(m, i, s, l);
      SimJumpStmt(p, m, s, i, end, l, stk, env, fuel);
    }
  }

  lemma SimValueStmt(p: Prims, m: seq<Op>, s: Stmt, i: int, end: int, l: Labels, stk: seq<Value>, env: Env, fuel: nat)
    requires (s.ExprStmt? || s.Return?) && HasS(m, i, s, l) && end == i + SizeS(s)
    ensures Ends(p, m, At(i, stk, env), end, l, stk, Exec(p, s, env, fuel), fuel)
  {
    var st, r := At(i, stk, env), Eval(p, s.e, env);
    if s.Return? {
      ValueParts(m, i, s, l);
      SimReturn(p, m, s.e, i, stk, env);
      EndsReturned(p, m, st, end, l, stk, r, fuel);
    } else {
      if !s.e.Const? { ValueParts(m, i, s, l); }
      SimExprStmt(p, m, s.e, i, end, stk, env);
      EndsEffect(p, m, st, end, l, stk, r, fuel);
    }
  }

  lemma EndsReturned(p: Prims, m: seq<Op>, s: State, j: int, l: Labels, stk: seq<Value>, r: Result, fuel: nat)
    requires Reaches(p, m, s, 0, Result1(r))
    ensures Ends(p, m, s, j, l, stk, if r.Err? then Raised(r.error, r.env) else Returned(Some(r.v), r.env), fuel)
  {
    EndsOpen(p, m, s, j, l, stk, if r.Err? then Raised(r.error, r.env) else Returned(Some(r.v), r.env), fuel);
  }

  lemma SimJumpStmt(p: Prims, m: seq<Op>, s: Stmt, i: int, end: int, l: Labels, stk: seq<Value>, env: Env, fuel: nat)
    requires Sound(m, l)
    requires (s.ReturnNil? && OpAt(m, i, RetNil)) || (s.Break? && l.Loop? && OpAt(m, i, Jump(l.brk)))
      || (s.Continue? && l.Loop? && OpAt(m, i, Jump(ContTarget(l, i))))
    ensures Ends(p, m, At(i, stk, env), end, l, stk,
      if s.Break? then Broke(env) else if s.Continue? then Continued(env) else Returned(None, env), fuel)
  {
    var st := At(i, stk, env);
    if s.Continue? {
      SimContinue(p, m, i, l, stk, env);
      EndsOpen(p, m, st, end, l, stk, Continued(env), fuel);
    } else {
      var op := if s.Break? then Jump(l.brk) else RetNil;
      RunOne(p, m, i, stk, env, op);
      Fewer(p, m, st, 1, Do(p, op, i, stk, env), 0);
      EndsOpen(p, m, st, end, l, stk, if s.Break? then Broke(env) else Returned(None, env), fuel);
    }
  }

  lemma SimContinue(p: Prims, m: seq<Op>, i: int, l: Labels, stk: seq<Value>, env: Env)
    requires l.Loop? && OpAt(m, i, Jump(ContTarget(l, i))) && Sound(m, l)
    ensures Reaches(p, m, At(i, stk, env), 1, At(l.cont.to, stk, env))
  {
    var x := ContTarget(l, i);
    StraightAt(m, i, Jump(x));
    RunOne(p, m, i, stk, env, Jump(x));
    if x != l.cont.to {
      RunOne(p, m, x, stk, env, Jump(l.cont.to));
      RunOn(p, m, At(i, stk, env), 1, At(x, stk, env), 1, At(l.cont.to, stk, env));
      Fewer(p, m, At(i, stk, env), 2, At(l.cont.to, stk, env), 1);
    }
  }

  lemma SimExprStmt(p: Prims, m: seq<Op>, e: Expr, i: int, end: int, stk: seq<Value>, env: Env)
    requires e.Const? || (HasE(m, i, e) && OpAt(m, i + SizeE(e), Pop))
    requires end == i + SizeS(ExprStmt(e))
    ensures Reaches(p, m, At(i, stk, env), 0, Effect(Eval(p, e, env), end, stk))
  {
    if e.Const? { Stays(p, m, At(i, stk, env)); } else { SimEffect(p, m, e, i, stk, env); }
  }

  function Result1(r: Result): State {
    if r.Err? then Panic(r.error, r.env) else Done(Some(r.v), r.env)
  }

  lemma SimReturn(p: Prims, m: seq<Op>, e: Expr, i: int, stk: seq<Value>, env: Env)
    requires HasE(m, i, e) && OpAt(m, i + SizeE(e), Ret)
    ensures Reaches(p, m, At(i, stk, env), 0, Result1(Eval(p, e, env)))
  {
    SimE(p, m, e, i, stk, env);
    StepReturn(p, m, At(i, stk, env), Eval(p, e, env), i + SizeE(e), stk);
  }

  lemma StepReturn(p: Prims, m: seq<Op>, s: State, r: Result, i: int, stk: seq<Value>)
    requires OpAt(m, i, Ret) && Reaches(p, m, s, 0, Pushed(r, i, stk))
    ensures Reaches(p, m, s, 0, Result1(r))
  {
    if r.Val? { StackTop(stk, r.v); }
    RunValue(p, m, s, r, i, stk, Ret);
  }

  lemma {:induction false} SimSS(p: Prims, m: seq<Op>, ss: Stmts, i: int, end: int, l: Labels, stk: seq<Value>, env: Env, fuel: nat)
    requires HasSS(m, i, ss, l) && Sound(m, l) && PlacedAll(ss, l.Loop?) && end == i + SizeSS(ss)
    ensures Ends(p, m, At(i, stk, env), end, l, stk, ExecAll(p, ss, env, fuel), fuel)
    decreases fuel, ss, 4
  {
    var s := At(i, stk, env);
    if ss.End? {
      Stays(p, m, s);
      EndsNext(p, m, s, end, l, stk, env, fuel);
    } else {
      var j := i + SizeS(ss.first);
      MoreParts(m, i, ss, l);
      SimS(p, m, ss.first, i, j, l, stk, env, fuel);
      SimThenMore(p, m, ss, s, i, j, end, l, stk, Exec(p, ss.first, env, fuel), fuel);
    }
  }

  /** The first statement has had outcome o. */
  lemma {:induction false} SimThenMore(p: Prims, m: seq<Op>, ss: Stmts, s: State, i: int, j: int, end: int, l: Labels, stk: seq<Value>, o: Outcome, fuel: nat)
    requires ss.Seq? && HasS(m, i, ss.first, l) && Sound(m, l) && PlacedAll(ss.rest, l.Loop?)
    requires HasSS(m, j, ss.rest, Seen(l, FirstS(ss.first, i))) && end == j + SizeSS(ss.rest)
    requires Ends(p, m, s, j, l, stk, o, fuel)
    ensures Ends(p, m, s, end, l, stk, if o.Next? then ExecAll(p, ss.rest, o.env, fuel) else o, fuel)
    decreases fuel, ss, 3
  {
    if o.Next? {
      EndsNext(p, m, s, j, l, stk, o.env, fuel);
      SimMore(p, m, ss, i, j, end, l, stk, o.env, fuel);
      EndsAfter(p, m, s, At(j, stk, o.env), end, l, stk, ExecAll(p, ss.rest, o.env, fuel), fuel);
    } else {
      EndsElsewhere(p, m, s, j, l, end, l, stk, o, fuel);
    }
  }

  lemma {:induction false} SimMore(p: Prims, m: seq<Op>, ss: Stmts, i: int, j: int, end: int, l: Labels, stk: seq<Value>, env: Env, fuel: nat)
    requires ss.Seq? && HasS(m, i, ss.first, l) && Sound(m, l) && PlacedAll(ss.rest, l.Loop?)
    requires HasSS(m, j, ss.rest, Seen(l, FirstS(ss.first, i))) && end == j + SizeSS(ss.rest)
    ensures Ends(p, m, At(j, stk, env), end, l, stk, ExecAll(p, ss.rest, env, fuel), fuel)
    decreases fuel, ss, 2
  {
    FirstSound(m, i, ss.first, l);
    SimSS(p, m, ss.rest, j, end, Seen(l, FirstS(ss.first, i)), stk, env, fuel);
    EndsSeen(p, m, At(j, stk, env), end, l, FirstS(ss.first, i), stk, ExecAll(p, ss.rest, env, fuel), fuel);
  }

  /** A test that came out one way, and what follows it. */
  lemma EndsTest(p: Prims, m: seq<Op>, s: State, r: Result, yes: int, no: int, j: int, l: Labels, stk: seq<Value>, o: Outcome, fuel: nat)
    requires r.Val? && r.v.Bool?
    requires Tests(p, m, s, r, yes, no, stk)
    requires Ends(p, m, At(if r.v.b then yes else no, stk, r.env), j, l, stk, o, fuel)
    ensures Ends(p, m, s, j, l, stk, o, fuel)
  {
    var s1 := At(if r.v.b then yes else no, stk, r.env);
    Fewer(p, m, s, 1, s1, 0);
    EndsAfter(p, m, s, s1, j, l, stk, o, fuel);
  }

  /** A test that panics. */
  lemma EndsFailed(p: Prims, m: seq<Op>, s: State, r: Result, yes: int, no: int, j: int, l: Labels, stk: seq<Value>, fuel: nat)
    requires r.Err? && Tests(p, m, s, r, yes, no, stk)
    ensures Ends(p, m, s, j, l, stk, Raised(r.error, r.env), fuel)
  {
    EndsRaised(p, m, s, j, l, stk, r.error, r.env, fuel);
  }

  lemma {:induction false} SimIf(p: Prims, m: seq<Op>, s: Stmt, i: int, end: int, l: Labels, stk: seq<Value>, env: Env, fuel: nat)
    requires s.If? && HasS(m, i, s, l) && Sound(m, l) && Placed(s, l.Loop?) && end == i + SizeS(s)
    ensures Ends(p, m, At(i, stk, env), end, l, stk, Exec(p, s, env, fuel), fuel)
    decreases fuel, s, 3
  {
    var j, st := i + SizeE(s.c) + 1, At(i, stk, env);
    IfParts(m, i, s, l, j);
    var r := Test(p, Some(s.c), env);
    SimIfTest(p, m, i, s.c, end, stk, env);
    if r.Err? {
      EndsFailed(p, m, st, r, j, end, end, l, stk, fuel);
    } else if r.v.b {
      SimS(p, m, s.t, j, end, l, stk, r.env, fuel);
      EndsTest(p, m, st, r, j, end, end, l, stk, Exec(p, s.t, r.env, fuel), fuel);
    } else {
      Stays(p, m, At(end, stk, r.env));
      EndsNext(p, m, At(end, stk, r.env), end, l, stk, r.env, fuel);
      EndsTest(p, m, st, r, j, end, end, l, stk, Next(r.env), fuel);
    }
  }

  lemma {:induction false} SimIfElse(p: Prims, m: seq<Op>, s: Stmt, i: int, end: int, l: Labels, stk: seq<Value>, env: Env, fuel: nat)
    requires s.IfElse? && HasS(m, i, s, l) && Sound(m, l) && Placed(s, l.Loop?) && end == i + SizeS(s)
    ensures Ends(p, m, At(i, stk, env), end, l, stk, Exec(p, s, env, fuel), fuel)
    decreases fuel, s, 3
  {
    var j := i + SizeE(s.c) + 1;
    SimParts(p, m, s, i, j, j + SizeS(s.t) + 1, end, l, stk, env, fuel);
  }

  lemma {:induction false} SimParts(p: Prims, m: seq<Op>, s: Stmt, i: int, j: int, k: int, end: int, l: Labels, stk: seq<Value>, env: Env, fuel: nat)
    requires s.IfElse? && HasS(m, i, s, l) && Sound(m, l) && Placed(s.t, l.Loop?) && Placed(s.f, l.Loop?)
    requires j == i + SizeE(s.c) + 1 && k == j + SizeS(s.t) + 1 && end == k + SizeS(s.f)
    ensures Ends(p, m, At(i, stk, env), end, l, stk, Exec(p, s, env, fuel), fuel)
    decreases fuel, s, 2
  {
    IfElseParts(m, i, s, l, j, k);
    var r, st := Test(p, Some(s.c), env), At(i, stk, env);
    SimIfTest(p, m, i, s.c, k, stk, env);
    if r.Err? {
      EndsFailed(p, m, st, r, j, k, end, l, stk, fuel);
    } else if r.v.b {
      SimThen(p, m, s, j, k, end, l, stk, r.env, fuel);
      EndsTest(p, m, st, r, j, k, end, l, stk, Exec(p, s.t, r.env, fuel), fuel);
    } else {
      SimElse(p, m, s, j, k, end, l, stk, r.env, fuel);
      EndsTest(p, m, st, r, j, k, end, l, stk, Exec(p, s.f, r.env, fuel), fuel);
    }
  }

  lemma {:induction false} SimThen(p: Prims, m: seq<Op>, s: Stmt, j: int, k: int, end: int, l: Labels, stk: seq<Value>, env: Env, fuel: nat)
    requires s.IfElse? && HasS(m, j, s.t, l) && Sound(m, l) && Placed(s.t, l.Loop?)
    requires k == j + SizeS(s.t) + 1 && OpAt(m, k - 1, Jump(end))
    ensures Ends(p, m, At(j, stk, env), end, l, stk, Exec(p, s.t, env, fuel), fuel)
    decreases fuel, s, 1
  {
    SimS(p, m, s.t, j, k - 1, l, stk, env, fuel);
    EndsJump(p, m, At(j, stk, env), k - 1, end, l, stk, Exec(p, s.t, env, fuel), fuel);
  }

  lemma {:induction false} SimElse(p: Prims, m: seq<Op>, s: Stmt, j: int, k: int, end: int, l: Labels, stk: seq<Value>, env: Env, fuel: nat)
    requires s.IfElse? && end == k + SizeS(s.f)
    requires HasS(m, j, s.t, l) && HasS(m, k, s.f, Seen(l, FirstS(s.t, j))) && Sound(m, l) && Placed(s.f, l.Loop?)
    ensures Ends(p, m, At(k, stk, env), end, l, stk, Exec(p, s.f, env, fuel), fuel)
    decreases fuel, s, 1
  {
    var first := FirstS(s.t, j);
    FirstSound(m, j, s.t, l);
    SimS(p, m, s.f, k, end, Seen(l, first), stk, env, fuel);
    EndsSeen(p, m, At(k, stk, env), end, l, first, stk, Exec(p, s.f, env, fuel), fuel);
  }

  // ------------------------------------------------------------------- switch

  /** Where the tests of a case go. */
  function Sorted1(r: Result, x: Value, body: int, after: int, stk: seq<Value>): State
    requires r.Val? ==> r.v.Bool?
  {
    if r.Err? then Panic(r.error, r.env)
    else if r.v.b then At(body, stk, r.env) else At(after, stk + [x], r.env)
  }

  lemma {:induction false} SimTests(p: Prims, m: seq<Op>, x: Value, e: Expr, more: Exprs, i: int, body: int, after: int, stk: seq<Value>, env: Env)
    requires HasTests(m, i, e, more, body, after) && body == i + SizeTests(e, more)
    ensures Reaches(p, m, At(i, stk + [x], env), 0, Sorted1(Matches(p, x, e, more, env), x, body, after, stk))
    decreases more
  {
    TestsParts(m, i, e, more, body, after);
    SimE(p, m, e, i, stk + [x], env);
    var r := Eval(p, e, env);
    var j := i + SizeE(e);
    var s := At(i, stk + [x], env);
    if more.Nil? {
      StepIsnt(p, m, s, x, r, j, body, after, stk);
    } else {
      StepIs(p, m, s, x, r, j, body, stk);
      if r.Val? && !p.equal(x, r.v) {
        SimTests(p, m, x, more.head, more.tail, j + 1, body, after, stk, r.env);
        RunOn(p, m, s, 0, At(j + 1, stk + [x], r.env), 0,
              Sorted1(Matches(p, x, more.head, more.tail, r.env), x, body, after, stk));
      }
    }
  }

  lemma StepIs(p: Prims, m: seq<Op>, s: State, x: Value, r: Result, i: int, body: int, stk: seq<Value>)
    requires OpAt(m, i, JumpIs(body)) && Reaches(p, m, s, 0, Pushed(r, i, stk + [x]))
    ensures Reaches(p, m, s, 0,
                    if r.Err? then Panic(r.error, r.env)
                    else if p.equal(x, r.v) then At(body, stk, r.env) else At(i + 1, stk + [x], r.env))
  {
    if r.Val? { StackTop2(stk, x, r.v); }
    RunValue(p, m, s, r, i, stk + [x], JumpIs(body));
  }

  lemma StepIsnt(p: Prims, m: seq<Op>, s: State, x: Value, r: Result, i: int, body: int, after: int, stk: seq<Value>)
    requires OpAt(m, i, JumpIsnt(after)) && body == i + 1 && Reaches(p, m, s, 0, Pushed(r, i, stk + [x]))
    ensures Reaches(p, m, s, 0,
                    if r.Err? then Panic(r.error, r.env)
                    else if p.equal(x, r.v) then At(body, stk, r.env) else At(after, stk + [x], r.env))
  {
    if r.Val? { StackTop2(stk, x, r.v); }
    RunValue(p, m, s, r, i, stk + [x], JumpIsnt(after));
  }

  /** What a list of cases comes to: a body run to the end of the switch, or none. */
  ghost predicate Chooses(p: Prims, m: seq<Op>, s: State, c: Choice, x: Value, j: int, end: int, l: Labels, stk: seq<Value>, fuel: nat) {
    var all :=
      match c
      case Failed(err, env) => Reaches(p, m, s, 0, Panic(err, env))
      case Chosen(body, env) => Ends(p, m, s, end, l, stk, ExecAll(p, body, env, fuel), fuel)
      case Defaulted(env) => Reaches(p, m, s, 0, At(j, stk + [x], env));
    all
  }

  lemma {:induction false} SimCases(p: Prims, m: seq<Op>, x: Value, cases: Cases, i: int, no: int, end: int, l: Labels, stk: seq<Value>, env: Env, fuel: nat)
    requires HasCases(m, i, cases, end, l) && Sound(m, l) && PlacedCases(cases, l.Loop?) && no == i + SizeCases(cases)
    ensures Chooses(p, m, At(i, stk + [x], env), Choose(p, x, cases, env), x, no, end, l, stk, fuel)
    decreases fuel, cases, 4
  {
    if cases.NoCases? {
      Stays(p, m, At(i, stk + [x], env));
    } else {
      var j := i + SizeTests(cases.e, cases.more);
      SimCase(p, m, x, cases, i, j, j + SizeSS(cases.body) + 1, no, end, l, stk, env, fuel);
    }
  }

  lemma {:induction false} SimCase(p: Prims, m: seq<Op>, x: Value, cases: Cases, i: int, j: int, k: int, no: int, end: int, l: Labels, stk: seq<Value>, env: Env, fuel: nat)
    requires cases.Case? && HasCases(m, i, cases, end, l) && Sound(m, l) && PlacedCases(cases, l.Loop?)
    requires j == i + SizeTests(cases.e, cases.more) && k == j + SizeSS(cases.body) + 1 && no == k + SizeCases(cases.rest)
    ensures Chooses(p, m, At(i, stk + [x], env), Choose(p, x, cases, env), x, no, end, l, stk, fuel)
    decreases fuel, cases, 3
  {
    CasesParts(m, i, cases, end, l, j, k);
    SimTests(p, m, x, cases.e, cases.more, i, j, k, stk, env);
    var s := At(i, stk + [x], env);
    var r := Matches(p, x, cases.e, cases.more, env);
    if r.Val? && r.v.b {
      SimCaseBody(p, m, cases, s, j, k, end, l, stk, r.env, fuel);
    } else if r.Val? {
      SimOtherCases(p, m, x, cases, s, j, k, no, end, l, stk, r.env, fuel);
    }
  }

  lemma {:induction false} SimCaseBody(p: Prims, m: seq<Op>, cases: Cases, s: State, j: int, k: int, end: int, l: Labels, stk: seq<Value>, env: Env, fuel: nat)
    requires cases.Case? && HasSS(m, j, cases.body, l) && Sound(m, l) && PlacedAll(cases.body, l.Loop?)
    requires k == j + SizeSS(cases.body) + 1 && OpAt(m, k - 1, Jump(end))
    requires Reaches(p, m, s, 0, At(j, stk, env))
    ensures Ends(p, m, s, end, l, stk, ExecAll(p, cases.body, env, fuel), fuel)
    decreases fuel, cases, 2
  {
    SimSS(p, m, cases.body, j, k - 1, l, stk, env, fuel);
    var o := ExecAll(p, cases.body, env, fuel);
    EndsJump(p, m, At(j, stk, env), k - 1, end, l, stk, o, fuel);
    EndsAfter(p, m, s, At(j, stk, env), end, l, stk, o, fuel);
  }

  lemma {:induction false} SimOtherCases(p: Prims, m: seq<Op>, x: Value, cases: Cases, s: State, j: int, k: int, no: int, end: int, l: Labels, stk: seq<Value>, env: Env, fuel: nat)
    requires cases.Case? && HasSS(m, j, cases.body, l) && Sound(m, l) && PlacedCases(cases.rest, l.Loop?)
    requires HasCases(m, k, cases.rest, end, Seen(l, FirstSS(cases.body, j))) && no == k + SizeCases(cases.rest)
    requires Reaches(p, m, s, 0, At(k, stk + [x], env))
    ensures Chooses(p, m, s, Choose(p, x, cases.rest, env), x, no, end, l, stk, fuel)
    decreases fuel, cases, 2
  {
    var first := FirstSS(cases.body, j);
    AllFirstSound(m, j, cases.body, l);
    SimCases(p, m, x, cases.rest, k, no, end, Seen(l, first), stk, env, fuel);
    ChoosesAfter(p, m, s, At(k, stk + [x], env), Choose(p, x, cases.rest, env), x, no, end, l, first, stk, fuel);
  }

  lemma ChoosesAfter(p: Prims, m: seq<Op>, s: State, s1: State, c: Choice, x: Value, j: int, end: int, l: Labels, first: Option<int>, stk: seq<Value>, fuel: nat)
    requires Reaches(p, m, s, 0, s1) && Chooses(p, m, s1, c, x, j, end, Seen(l, first), stk, fuel)
    ensures Chooses(p, m, s, c, x, j, end, l, stk, fuel)
  {
    match c
    case Failed(err, env) => RunOn(p, m, s, 0, s1, 0, Panic(err, env));
    case Defaulted(env) => RunOn(p, m, s, 0, s1, 0, At(j, stk + [x], env));
    case Chosen(body, env) =>
      var o := ExecAll(p, body, env, fuel);
      EndsSeen(p, m, s1, end, l, first, stk, o, fuel);
      EndsAfter(p, m, s, s1, end, l, stk, o, fuel);
  }

  lemma {:induction false} SimDefault(p: Prims, m: seq<Op>, x: Value, default: Option<Stmts>, i: int, end: int, l: Labels, stk: seq<Value>, env: Env, fuel: nat)
    requires HasDefault(m, i, default, l) && Sound(m, l) && (default.Some? ==> PlacedAll(default.value, l.Loop?))
    requires end == i + SizeDefault(default)
    ensures Ends(p, m, At(i, stk + [x], env), end, l, stk, Defaults(p, default, env, fuel), fuel)
    decreases fuel, default, 5
  {
    DefaultParts(m, i, default, l);
    var s, s1 := At(i, stk + [x], env), At(i + 1, stk, env);
    StackTop(stk, x);
    RunOne(p, m, i, stk + [x], env, Pop);
    Fewer(p, m, s, 1, s1, 0);
    if default.Some? {
      SimSS(p, m, default.value, i + 1, end, l, stk, env, fuel);
    } else {
      SimUnhandled(p, m, i + 1, stk, env);
    }
    EndsAfter(p, m, s, s1, end, l, stk, Defaults(p, default, env, fuel), fuel);
  }

  lemma SimUnhandled(p: Prims, m: seq<Op>, i: int, stk: seq<Value>, env: Env)
    requires OpAt(m, i, Push(Unhandled)) && OpAt(m, i + 1, Throw)
    ensures Reaches(p, m, At(i, stk, env), 0, Panic(Thrown(Unhandled), env))
  {
    RunOne(p, m, i, stk, env, Push(Unhandled));
    StackTop(stk, Unhandled);
    RunOneMore(p, m, At(i, stk, env), i + 1, stk + [Unhandled], env, Throw);
    Fewer(p, m, At(i, stk, env), 1, Panic(Thrown(Unhandled), env), 0);
  }

  predicate PlacedSwitch(s: Stmt, loop: bool)
    requires s.Switch?
  {
    PlacedCases(s.cases, loop) && (s.default.Some? ==> PlacedAll(s.default.value, loop))
  }

  lemma {:induction false} SimSwitch(p: Prims, m: seq<Op>, s: Stmt, i: int, end: int, l: Labels, stk: seq<Value>, env: Env, fuel: nat)
    requires s.Switch? && HasS(m, i, s, l) && Sound(m, l) && PlacedSwitch(s, l.Loop?) && end == i + SizeS(s)
    ensures Ends(p, m, At(i, stk, env), end, l, stk, Exec(p, s, env, fuel), fuel)
    decreases fuel, s, 3
  {
    SwitchParts(m, i, s, l, i + SizeE(s.e), i + SizeE(s.e) + SizeCases(s.cases), end);
    var j := i + SizeE(s.e);
    SimE(p, m, s.e, i, stk, env);
    var r := Eval(p, s.e, env);
    if r.Val? {
      SimSwitchOn(p, m, r.v, s, i, j, end, l, stk, r.env, fuel);
      EndsAfter(p, m, At(i, stk, env), At(j, stk + [r.v], r.env), end, l, stk, Picked(p, r.v, s, r.env, fuel), fuel);
    }
  }

  lemma {:induction false} SimSwitchOn(p: Prims, m: seq<Op>, x: Value, s: Stmt, i: int, j: int, end: int, l: Labels, stk: seq<Value>, env: Env, fuel: nat)
    requires s.Switch? && HasS(m, i, s, l) && Sound(m, l) && PlacedSwitch(s, l.Loop?) && end == i + SizeS(s) && j == i + SizeE(s.e)
    ensures Ends(p, m, At(j, stk + [x], env), end, l, stk, Picked(p, x, s, env, fuel), fuel)
    decreases fuel, s, 2
  {
    var k := j + SizeCases(s.cases);
    SwitchParts(m, i, s, l, j, k, end);
    SimChoice(p, m, x, s, j, k, end, l, stk, env, fuel);
  }

  lemma {:induction false} SimChoice(p: Prims, m: seq<Op>, x: Value, s: Stmt, j: int, k: int, end: int, l: Labels, stk: seq<Value>, env: Env, fuel: nat)
    requires s.Switch? && Sound(m, l) && PlacedSwitch(s, l.Loop?)
    requires HasCases(m, j, s.cases, end, l) && k == j + SizeCases(s.cases)
    requires HasDefault(m, k, s.default, Seen(l, FirstCases(s.cases, j))) && end == k + SizeDefault(s.default)
    ensures Ends(p, m, At(j, stk + [x], env), end, l, stk, Picked(p, x, s, env, fuel), fuel)
    decreases fuel, s, 1
  {
    SimCases(p, m, x, s.cases, j, k, end, l, stk, env, fuel);
    var c := Choose(p, x, s.cases, env);
    if c.Defaulted? {
      SimOtherwise(p, m, x, s, j, k, end, l, stk, c.env, fuel);
      EndsAfter(p, m, At(j, stk + [x], env), At(k, stk + [x], c.env), end, l, stk, Defaults(p, s.default, c.env, fuel), fuel);
    }
  }

  lemma {:induction false} SimOtherwise(p: Prims, m: seq<Op>, x: Value, s: Stmt, j: int, k: int, end: int, l: Labels, stk: seq<Value>, env: Env, fuel: nat)
    requires s.Switch? && Sound(m, l) && (s.default.Some? ==> PlacedAll(s.default.value, l.Loop?))
    requires HasCases(m, j, s.cases, end, l)
    requires HasDefault(m, k, s.default, Seen(l, FirstCases(s.cases, j))) && end == k + SizeDefault(s.default)
    ensures Ends(p, m, At(k, stk + [x], env), end, l, stk, Defaults(p, s.default, env, fuel), fuel)
    decreases fuel, s, 0
  {
    var first := FirstCases(s.cases, j);
    CasesFirstSound(m, j, s.cases, end, l);
    SimDefault(p, m, x, s.default, k, end, Seen(l, first), stk, env, fuel);
    EndsSeen(p, m, At(k, stk + [x], env), end, l, first, stk, Defaults(p, s.default, env, fuel), fuel);
  }

  // -------------------------------------------------------------------- loops

  ghost predicate Stands(m: seq<Op>, y: Layout) {
    var all :=
      HasS(m, y.top, y.b, Loop(y.end, y.cont)) && Sound(m, Loop(y.end, y.cont)) && Placed(y.b, true)
      && y.inc0 == y.top + SizeS(y.b) && StandsTail(m, y)
      && (y.cont.to == y.inc0 || OpAt(m, y.cont.to, Jump(y.inc0)) || Direct(y));
    all
  }

  ghost predicate StandsTail(m: seq<Op>, y: Layout) {
    var all :=
      HasList(m, y.inc0, y.inc) && HasTest(m, y.test, y.cond, y.top)
      && y.test == y.inc0 + SizeList(y.inc) && y.end == y.test + SizeTest(y.cond);
    all
  }

  /** continue goes straight to the top. */
  predicate Direct(y: Layout) { y.cont.to == y.top && y.cond.None? && y.inc.Nil? }

  /** Increment and test. */
  lemma SimTail(p: Prims, m: seq<Op>, y: Layout, stk: seq<Value>, env: Env)
    requires StandsTail(m, y)
    ensures var r := EvalList(p, y.inc, env);
            r.Err? ==> Reaches(p, m, At(y.inc0, stk, env), 0, Panic(r.error, r.env))
    ensures var r := EvalList(p, y.inc, env);
            r.Val? ==> Tests(p, m, At(y.inc0, stk, env), Test(p, y.cond, r.env), y.top, y.end, stk)
  {
    SimList(p, m, y.inc, y.inc0, stk, env);
    var r := EvalList(p, y.inc, env);
    if r.Val? {
      SimTest(p, m, y.test, y.cond, y.top, stk, r.env);
      TestsAfter(p, m, At(y.inc0, stk, env), At(y.test, stk, r.env), Test(p, y.cond, r.env), y.top, y.end, stk);
    }
  }

  lemma TestsAfter(p: Prims, m: seq<Op>, s: State, s1: State, r: Result, yes: int, no: int, stk: seq<Value>)
    requires r.Val? ==> r.v.Bool?
    requires Reaches(p, m, s, 0, s1) && Tests(p, m, s1, r, yes, no, stk)
    ensures Tests(p, m, s, r, yes, no, stk)
  {
    if r.Err? { RunOn(p, m, s, 0, s1, 0, Panic(r.error, r.env)); }
    else { RunOn(p, m, s, 0, s1, 1, At(if r.v.b then yes else no, stk, r.env)); }
  }

  /** What Rounds does after a body that ended with the locals env. */
  function Again(p: Prims, y: Layout, env: Env, fuel: nat): Outcome {
    var r := EvalList(p, y.inc, env);
    if r.Err? then Raised(r.error, r.env)
    else
      var t := Test(p, y.cond, r.env);
      if t.Err? then Raised(t.error, t.env)
      else if !t.v.b then Next(t.env)
      else if fuel == 0 then OutOfFuel
      else Rounds(p, y.cond, y.inc, y.b, t.env, fuel - 1)
  }

  lemma {:induction false} SimRounds(p: Prims, m: seq<Op>, y: Layout, l: Labels, stk: seq<Value>, env: Env, fuel: nat)
    requires Stands(m, y)
    ensures Ends(p, m, At(y.top, stk, env), y.end, l, stk, Rounds(p, y.cond, y.inc, y.b, env, fuel), fuel)
    decreases fuel, y.b, 6
  {
    var l1 := Loop(y.end, y.cont);
    SimS(p, m, y.b, y.top, y.inc0, l1, stk, env, fuel);
    var o := Exec(p, y.b, env, fuel);
    var s := At(y.top, stk, env);
    EndsOpen(p, m, s, y.inc0, l1, stk, o, fuel);
    if o.Next? {
      SimAgain(p, m, y, l, stk, o.env, fuel);
      EndsAfter(p, m, s, At(y.inc0, stk, o.env), y.end, l, stk, Again(p, y, o.env, fuel), fuel);
    } else if o.Continued? {
      SimContinued(p, m, y, s, l, stk, o.env, fuel);
    } else if o.Broke? {
      EndsNext(p, m, s, y.end, l, stk, o.env, fuel);
    } else {
      EndsElsewhere(p, m, s, y.inc0, l1, y.end, l, stk, o, fuel);
    }
  }

  lemma {:induction false} SimContinued(p: Prims, m: seq<Op>, y: Layout, s: State, l: Labels, stk: seq<Value>, env: Env, fuel: nat)
    requires Stands(m, y) && Reaches(p, m, s, 1, At(y.cont.to, stk, env))
    ensures Ends(p, m, s, y.end, l, stk, Again(p, y, env, fuel), fuel)
    decreases fuel, y.b, 5
  {
    if y.cont.to == y.inc0 || OpAt(m, y.cont.to, Jump(y.inc0)) {
      if y.cont.to != y.inc0 {
        RunOne(p, m, y.cont.to, stk, env, Jump(y.inc0));
        RunOn(p, m, s, 1, At(y.cont.to, stk, env), 1, At(y.inc0, stk, env));
      }
      Fewer(p, m, s, 1, At(y.inc0, stk, env), 0);
      SimAgain(p, m, y, l, stk, env, fuel);
      EndsAfter(p, m, s, At(y.inc0, stk, env), y.end, l, stk, Again(p, y, env, fuel), fuel);
    } else {
      SimTop(p, m, y, s, l, stk, env, fuel);
    }
  }

  /** At the top again, one instruction later at least, with less fuel. */
  lemma {:induction false} SimTop(p: Prims, m: seq<Op>, y: Layout, s: State, l: Labels, stk: seq<Value>, env: Env, fuel: nat)
    requires Stands(m, y) && Reaches(p, m, s, 1, At(y.top, stk, env))
    ensures Ends(p, m, s, y.end, l, stk,
                 if fuel == 0 then OutOfFuel else Rounds(p, y.cond, y.inc, y.b, env, fuel - 1), fuel)
    decreases fuel, y.b, 2
  {
    var top := At(y.top, stk, env);
    if fuel > 0 {
      SimRounds(p, m, y, l, stk, env, fuel - 1);
      EndsLater(p, m, s, top, y.end, l, stk, Rounds(p, y.cond, y.inc, y.b, env, fuel - 1), fuel);
    } else {
      Fewer(p, m, s, 1, top, 0);
      EndsOpen(p, m, s, y.end, l, stk, OutOfFuel, fuel);
    }
  }

  /** After one instruction or more, one unit of fuel more lasts. */
  lemma EndsLater(p: Prims, m: seq<Op>, s: State, s1: State, j: int, l: Labels, stk: seq<Value>, o: Outcome, fuel: nat)
    requires fuel > 0 && Reaches(p, m, s, 1, s1) && Ends(p, m, s1, j, l, stk, o, fuel - 1)
    ensures Ends(p, m, s, j, l, stk, o, fuel)
  {
    EndsOpen(p, m, s1, j, l, stk, o, fuel - 1);
    EndsOpen(p, m, s, j, l, stk, o, fuel);
    if o.OutOfFuel? {
      LastsAfter(p, m, s, 1, s1, fuel - 1);
    } else {
      Fewer(p, m, s, 1, s1, 0);
      RunOn(p, m, s, 0, s1, if o.Continued? then 1 else 0, Left(o, j, l, stk));
    }
  }

  lemma {:induction false} SimAgain(p: Prims, m: seq<Op>, y: Layout, l: Labels, stk: seq<Value>, env: Env, fuel: nat)
    requires Stands(m, y)
    ensures Ends(p, m, At(y.inc0, stk, env), y.end, l, stk, Again(p, y, env, fuel), fuel)
    decreases fuel, y.b, 4
  {
    var s := At(y.inc0, stk, env);
    SimTail(p, m, y, stk, env);
    var r := EvalList(p, y.inc, env);
    if r.Err? {
      EndsRaised(p, m, s, y.end, l, stk, r.error, r.env, fuel);
    } else {
      SimAround(p, m, y, s, l, stk, r.env, Test(p, y.cond, r.env), fuel);
    }
  }

  /** From the result of the test. */
  lemma {:induction false} SimAround(p: Prims, m: seq<Op>, y: Layout, s: State, l: Labels, stk: seq<Value>, env: Env, t: Result, fuel: nat)
    requires Stands(m, y) && t == Test(p, y.cond, env) && Tests(p, m, s, t, y.top, y.end, stk)
    ensures Ends(p, m, s, y.end, l, stk, if t.Err? then Raised(t.error, t.env) else if !t.v.b then Next(t.env)
      else if fuel == 0 then OutOfFuel else Rounds(p, y.cond, y.inc, y.b, t.env, fuel - 1), fuel)
    decreases fuel, y.b, 3
  {
    if t.Err? {
      EndsRaised(p, m, s, y.end, l, stk, t.error, t.env, fuel);
    } else if t.v.b {
      SimTop(p, m, y, s, l, stk, t.env, fuel);
    } else {
      Fewer(p, m, s, 1, At(y.end, stk, t.env), 0);
      EndsNext(p, m, s, y.end, l, stk, t.env, fuel);
    }
  }

  lemma {:induction false} SimTested(p: Prims, m: seq<Op>, y: Layout, l: Labels, stk: seq<Value>, env: Env, fuel: nat)
    requires Stands(m, y)
    ensures Ends(p, m, At(y.test, stk, env), y.end, l, stk, Tested(p, y.cond, y.inc, y.b, env, fuel), fuel)
    decreases fuel, y.b, 7
  {
    var s := At(y.test, stk, env);
    SimTest(p, m, y.test, y.cond, y.top, stk, env);
    var t := Test(p, y.cond, env);
    if t.Err? {
      EndsFailed(p, m, s, t, y.top, y.end, y.end, l, stk, fuel);
    } else {
      var o := if t.v.b then Rounds(p, y.cond, y.inc, y.b, t.env, fuel) else Next(t.env);
      if t.v.b {
        SimRounds(p, m, y, l, stk, t.env, fuel);
      } else {
        Stays(p, m, At(y.end, stk, t.env));
        EndsNext(p, m, At(y.end, stk, t.env), y.end, l, stk, t.env, fuel);
      }
      EndsTest(p, m, s, t, y.top, y.end, y.end, l, stk, o, fuel);
    }
  }

  lemma LoopStands(m: seq<Op>, s: Stmt, i: int, l: Labels, y: Layout)
    requires IsLoop(s) && HasS(m, i, s, l) && Straight(m) && Placed(s.b, true) && y == LayoutOf(s, i)
    ensures Stands(m, y)
  {
    LoopParts(m, i, s, l, y);
  }

  lemma {:induction false} SimLoop(p: Prims, m: seq<Op>, s: Stmt, i: int, end: int, l: Labels, stk: seq<Value>, env: Env, fuel: nat)
    requires IsLoop(s) && HasS(m, i, s, l) && Straight(m) && Placed(s.b, true) && end == i + SizeS(s)
    ensures Ends(p, m, At(i, stk, env), end, l, stk, ExecLoop(p, s, env, fuel), fuel)
    decreases fuel, s, 3
  {
    var y := LayoutOf(s, i);
    LoopParts(m, i, s, l, y);
    LoopStands(m, s, i, l, y);
    LayoutFacts(s, i, y);
    if s.For? {
      SimFor(p, m, y, s, i, l, stk, env, fuel);
    } else {
      SimRepeat(p, m, y, s, i, l, stk, env, fuel);
    }
  }

  lemma LayoutFacts(s: Stmt, i: int, y: Layout)
    requires IsLoop(s) && y == LayoutOf(s, i)
    ensures y.b == s.b && y.end == i + SizeS(s)
    ensures s.For? ==> y.cond == s.cond && y.inc == s.inc && (y.cond.None? ==> y.top == i + SizeList(s.init))
    ensures !s.For? ==> y.inc.Nil? && y.cond == (if s.Forever? then None else Some(s.c)) && (!s.While? ==> y.top == i)
  {
  }

  lemma {:induction false} SimRepeat(p: Prims, m: seq<Op>, y: Layout, s: Stmt, i: int, l: Labels, stk: seq<Value>, env: Env, fuel: nat)
    requires (s.Forever? || s.DoWhile? || s.While?) && Stands(m, y) && y.b == s.b && y.inc.Nil?
    requires y.cond == (if s.Forever? then None else Some(s.c)) && (if s.While? then OpAt(m, i, Jump(y.test)) else y.top == i)
    ensures Ends(p, m, At(i, stk, env), y.end, l, stk, ExecLoop(p, s, env, fuel), fuel)
    decreases fuel, s, 2
  {
    if s.While? {
      SimWhile(p, m, y, i, l, stk, env, fuel);
    } else {
      SimRounds(p, m, y, l, stk, env, fuel);
    }
  }

  /** A jump to the test. */
  lemma {:induction false} SimWhile(p: Prims, m: seq<Op>, y: Layout, i: int, l: Labels, stk: seq<Value>, env: Env, fuel: nat)
    requires Stands(m, y) && OpAt(m, i, Jump(y.test))
    ensures Ends(p, m, At(i, stk, env), y.end, l, stk, Tested(p, y.cond, y.inc, y.b, env, fuel), fuel)
    decreases fuel, y.b, 8
  {
    RunOne(p, m, i, stk, env, Jump(y.test));
    Fewer(p, m, At(i, stk, env), 1, At(y.test, stk, env), 0);
    SimTested(p, m, y, l, stk, env, fuel);
    EndsAfter(p, m, At(i, stk, env), At(y.test, stk, env), y.end, l, stk, Tested(p, y.cond, y.inc, y.b, env, fuel), fuel);
  }

  lemma {:induction false} SimFor(p: Prims, m: seq<Op>, y: Layout, s: Stmt, i: int, l: Labels, stk: seq<Value>, env: Env, fuel: nat)
    requires s.For? && y.cond == s.cond && y.inc == s.inc && y.b == s.b && Stands(m, y) && HasList(m, i, s.init)
    requires y.cond.None? ==> y.top == i + SizeList(s.init)
    requires y.cond.Some? ==> OpAt(m, i + SizeList(s.init), Jump(y.test))
    ensures Ends(p, m, At(i, stk, env), y.end, l, stk, ExecLoop(p, s, env, fuel), fuel)
    decreases fuel, s, 2
  {
    SimList(p, m, s.init, i, stk, env);
    SimStarted(p, m, y, At(i, stk, env), i + SizeList(s.init), l, stk, EvalList(p, s.init, env), fuel);
  }

  /** A for whose initial expressions gave r. */
  lemma {:induction false} SimStarted(p: Prims, m: seq<Op>, y: Layout, s: State, j: int, l: Labels, stk: seq<Value>, r: Result, fuel: nat)
    requires Stands(m, y) && (y.cond.None? ==> y.top == j) && (y.cond.Some? ==> OpAt(m, j, Jump(y.test)))
    requires Reaches(p, m, s, 0, Effect(r, j, stk))
    ensures Ends(p, m, s, y.end, l, stk, if r.Err? then Raised(r.error, r.env) else Tested(p, y.cond, y.inc, y.b, r.env, fuel), fuel)
    decreases fuel, y.b, 9
  {
    if r.Err? {
      EndsRaised(p, m, s, y.end, l, stk, r.error, r.env, fuel);
    } else {
      if y.cond.Some? {
        SimWhile(p, m, y, j, l, stk, r.env, fuel);
      } else {
        SimRounds(p, m, y, l, stk, r.env, fuel);
      }
      EndsAfter(p, m, s, At(j, stk, r.env), y.end, l, stk, Tested(p, y.cond, y.inc, y.b, r.env, fuel), fuel);
    }
  }

  // ---------------------------------------------------------------- functions

  /** Off the end of the code the function returns what is on its stack. */
  lemma RunOff(p: Prims, m: seq<Op>, s: State, stk: seq<Value>, env: Env)
    requires Reaches(p, m, s, 0, At(|m|, stk, env))
    ensures Reaches(p, m, s, 0, Finish(stk, env))
  {
    var t, u := At(|m|, stk, env), Finish(stk, env);
    assert Linked(p, m, [t, u], 0);
    assert Trace(p, m, [t, u]);
    assert Reaches(p, m, t, 0, u);
    RunOn(p, m, s, 0, t, 0, u);
  }

  /** A break or continue comes out of a statement only if it stands in a loop. */
  lemma {:induction false} PlacedOutcome(p: Prims, s: Stmt, env: Env, fuel: nat)
    requires Placed(s, false)
    ensures !Exec(p, s, env, fuel).Broke? && !Exec(p, s, env, fuel).Continued?
    decreases fuel, s, 3
  {
    if s.Block? {
      PlacedOutcomes(p, s.body, env, fuel);
    } else if s.If? || s.IfElse? {
      var r := Test(p, Some(s.c), env);
      if r.Val? && r.v.b { PlacedOutcome(p, s.t, r.env, fuel); }
      else if r.Val? && s.IfElse? { PlacedOutcome(p, s.f, r.env, fuel); }
    } else if s.Switch? {
      var r := Eval(p, s.e, env);
      if r.Val? { PlacedPicked(p, r.v, s, r.env, fuel); }
    } else if IsLoop(s) {
      LoopOutcome(p, s, env, fuel);
    }
  }

  lemma {:induction false} PlacedOutcomes(p: Prims, ss: Stmts, env: Env, fuel: nat)
    requires PlacedAll(ss, false)
    ensures !ExecAll(p, ss, env, fuel).Broke? && !ExecAll(p, ss, env, fuel).Continued?
    decreases fuel, ss, 3
  {
    if ss.Seq? {
      PlacedOutcome(p, ss.first, env, fuel);
      var o := Exec(p, ss.first, env, fuel);
      if o.Next? { PlacedOutcomes(p, ss.rest, o.env, fuel); }
    }
  }

  lemma {:induction false} PlacedPicked(p: Prims, x: Value, s: Stmt, env: Env, fuel: nat)
    requires s.Switch? && PlacedCases(s.cases, false) && (s.default.Some? ==> PlacedAll(s.default.value, false))
    ensures !Picked(p, x, s, env, fuel).Broke? && !Picked(p, x, s, env, fuel).Continued?
    decreases fuel, s, 2
  {
    var c := Choose(p, x, s.cases, env);
    if c.Chosen? {
      PlacedChoice(p, x, s.cases, env);
      PlacedOutcomes(p, c.body, c.env, fuel);
    } else if c.Defaulted? && s.default.Some? {
      PlacedOutcomes(p, s.default.value, c.env, fuel);
    }
  }

  lemma {:induction false} PlacedChoice(p: Prims, x: Value, cases: Cases, env: Env)
    requires PlacedCases(cases, false)
    ensures var c := Choose(p, x, cases, env); c.Chosen? ==> PlacedAll(c.body, false)
    decreases cases
  {
    if cases.Case? {
      var r := Matches(p, x, cases.e, cases.more, env);
      if r.Val? && !r.v.b { PlacedChoice(p, x, cases.rest, r.env); }
    }
  }

  lemma {:induction false} LoopOutcome(p: Prims, s: Stmt, env: Env, fuel: nat)
    requires IsLoop(s)
    ensures !ExecLoop(p, s, env, fuel).Broke? && !ExecLoop(p, s, env, fuel).Continued?
  {
    match s
    case Forever(b) => RoundsOutcome(p, None, Nil, b, env, fuel);
    case DoWhile(b, c) => RoundsOutcome(p, Some(c), Nil, b, env, fuel);
    case While(c, b) =>
      var t := Test(p, Some(c), env);
      if t.Val? { RoundsOutcome(p, Some(c), Nil, b, t.env, fuel); }
    case For(init, cond, inc, b) =>
      var r := EvalList(p, init, env);
      if r.Val? {
        var t := Test(p, cond, r.env);
        if t.Val? { RoundsOutcome(p, cond, inc, b, t.env, fuel); }
      }
  }

  lemma {:induction false} RoundsOutcome(p: Prims, cond: Option<Expr>, inc: Exprs, b: Stmt, env: Env, fuel: nat)
    ensures !Rounds(p, cond, inc, b, env, fuel).Broke? && !Rounds(p, cond, inc, b, env, fuel).Continued?
    decreases fuel
  {
    var o := Exec(p, b, env, fuel);
    if (o.Next? || o.Continued?) && fuel > 0 {
      var r := EvalList(p, inc, o.env);
      if r.Val? {
        var t := Test(p, cond, r.env);
        if t.Val? { RoundsOutcome(p, cond, inc, b, t.env, fuel - 1); }
      }
    }
  }

  lemma SimLast(p: Prims, m: seq<Op>, e: Expr, i: int, env: Env)
    requires HasE(m, i, e) && i + SizeE(e) == |m|
    ensures Reaches(p, m, At(i, [], env), 0, Result1(Eval(p, e, env)))
  {
    SimE(p, m, e, i, [], env);
    var r := Eval(p, e, env);
    if r.Val? {
      StackTop([], r.v);
      RunOff(p, m, At(i, [], env), [] + [r.v], r.env);
    }
  }

  /** The main result for functions. */
  lemma {:induction false} SimF(p: Prims, m: seq<Op>, body: Stmts, i: int, env: Env, fuel: nat)
    requires HasF(m, i, body) && PlacedF(body) && Straight(m)
    ensures Call(p, body, env, fuel).Returned? || Call(p, body, env, fuel).Raised? || Call(p, body, env, fuel).OutOfFuel?
    ensures Ends(p, m, At(i, [], env), |m|, NoLoop, [], Call(p, body, env, fuel), fuel)
    decreases body, 1
  {
    BodyParts(m, i, body);
    if body.Seq? { TopParts(m, i, body.first, body.rest.End?); BodyParts(m, i + SizeTop(body.first, body.rest.End?), body.rest); }
    var s := At(i, [], env);
    if body.End? {
      Stays(p, m, s);
      RunOff(p, m, s, [], env);
    } else {
      var last, s1 := body.rest.End?, body.first;
      if last && (s1.ExprStmt? || s1.Return?) {
        assert HasF(m, i + SizeTop(s1, last), body.rest);
        SimLast(p, m, s1.e, i, env);
      } else if last && s1.ReturnNil? {
        assert HasF(m, i + SizeTop(s1, last), body.rest);
        Stays(p, m, s);
        RunOff(p, m, s, [], env);
      } else {
        SimFirst(p, m, body, i, env, fuel);
      }
    }
  }

  lemma {:induction false} SimFirst(p: Prims, m: seq<Op>, body: Stmts, i: int, env: Env, fuel: nat)
    requires body.Seq? && HasS(m, i, body.first, NoLoop) && HasF(m, i + SizeS(body.first), body.rest) && PlacedF(body) && Straight(m)
    requires !(body.rest.End? && body.first.ExprStmt?)
    ensures Call(p, body, env, fuel).Returned? || Call(p, body, env, fuel).Raised? || Call(p, body, env, fuel).OutOfFuel?
    ensures Ends(p, m, At(i, [], env), |m|, NoLoop, [], Call(p, body, env, fuel), fuel)
    decreases body, 0
  {
    var s, j := At(i, [], env), i + SizeS(body.first);
    SimS(p, m, body.first, i, j, NoLoop, [], env, fuel);
    PlacedOutcome(p, body.first, env, fuel);
    var o := Exec(p, body.first, env, fuel);
    if o.Next? {
      EndsNext(p, m, s, j, NoLoop, [], o.env, fuel);
      SimF(p, m, body.rest, j, o.env, fuel);
      EndsAfter(p, m, s, At(j, [], o.env), |m|, NoLoop, [], Call(p, body.rest, o.env, fuel), fuel);
    }
  }
}
