/**
  Where the instructions of a statement stand in a whole function's code.
  */
module LayoutStmt {
  import opened Ast
  import opened Ops
  import opened Seal
  import opened LayoutExpr

  ghost predicate HasS(m: seq<Op>, i: int, s: Stmt, l: Labels)
    decreases s, 1
  {
    var has := forall u: int {:trigger Unfold(u)} :: Unfold(u) ==> (
      match s
      case ExprStmt(e) => e.Const? || (HasE(m, i, e) && OpAt(m, i + SizeE(e), Pop))
      case Block(body) => HasSS(m, i, body, l)
      case Return(e) => HasE(m, i, e) && OpAt(m, i + SizeE(e), Ret)
      case ReturnNil => OpAt(m, i, RetNil)
      case If(c, t) =>
        var j := i + SizeE(c) + 1;
        HasE(m, i, c) && OpAt(m, j - 1, JumpFalse(j + SizeS(t))) && HasS(m, j, t, l)
      case IfElse(_, _, _) => HasIfElse(m, i, s, l)
      case Switch(_, _, _) => HasSwitch(m, i, s, l)
      case Break => OpAt(m, i, Jump(if l.Loop? then l.brk else 0))
      case Continue => OpAt(m, i, Jump(ContTarget(l, i)))
      case _ => HasLoop(m, i, s));
    has
  }

  // These are sealed with the other key, so that opening HasS does not open its parts.

  ghost predicate HasIfElse(m: seq<Op>, i: int, s: Stmt, l: Labels)
    requires s.IfElse?
    decreases s, 0
  {
    var has := forall u: int {:trigger Open(u)} :: Open(u) ==> (
      var j := i + SizeE(s.c) + 1;
      var k := j + SizeS(s.t) + 1;
      HasE(m, i, s.c) && OpAt(m, j - 1, JumpFalse(k)) && HasS(m, j, s.t, l)
      && OpAt(m, k - 1, Jump(k + SizeS(s.f))) && HasS(m, k, s.f, Seen(l, FirstS(s.t, j))));
    has
  }

  ghost predicate HasSwitch(m: seq<Op>, i: int, s: Stmt, l: Labels)
    requires s.Switch?
    decreases s, 0
  {
    var has := forall u: int {:trigger Open(u)} :: Open(u) ==> (
      var j := i + SizeE(s.e);
      HasE(m, i, s.e) && HasCases(m, j, s.cases, i + SizeS(s), l)
      && HasDefault(m, j + SizeCases(s.cases), s.default, Seen(l, FirstCases(s.cases, j))));
    has
  }

  /** The parts of a loop: its body at top, its increment, its test, then the end. */
  datatype Layout = Layout(cond: Option<Expr>, inc: Exprs, b: Stmt, top: int, inc0: int, test: int, end: int, cont: Cont)

  function LayoutOf(s: Stmt, i: int): (y: Layout)
    requires IsLoop(s)
    ensures y.b == s.b && y.inc0 == y.top + SizeS(y.b) && y.test == y.inc0 + SizeList(y.inc)
    ensures y.end == y.test + SizeTest(y.cond) && y.end == i + SizeS(s)
  {
    match s
    case Forever(b) => Layout(None, Nil, b, i, i + SizeS(b), i + SizeS(b), i + SizeS(s), Back(i))
    case While(c, b) => Layout(Some(c), Nil, b, i + 1, i + 1 + SizeS(b), i + 1 + SizeS(b), i + SizeS(s), Back(i))
    case DoWhile(b, c) => Layout(Some(c), Nil, b, i, i + SizeS(b), i + SizeS(b), i + SizeS(s), Fwd(i + SizeS(b), None))
    case For(init, cond, inc, b) =>
      var top := i + SizeList(init) + (if cond.None? then 0 else 1);
      var inc0 := top + SizeS(b);
      Layout(cond, inc, b, top, inc0, inc0 + SizeList(inc), i + SizeS(s), Fwd(inc0, None))
  }

  ghost predicate HasLoop(m: seq<Op>, i: int, s: Stmt)
    requires IsLoop(s)
    decreases s, 0
  {
    var has := forall u: int {:trigger Open(u)} :: Open(u) ==> (
      var y := LayoutOf(s, i);
      HasS(m, y.top, y.b, Loop(y.end, y.cont)) && HasList(m, y.inc0, y.inc) && HasTest(m, y.test, y.cond, y.top)
      && (s.While? ==> OpAt(m, i, Jump(y.test)))
      && (s.For? ==> HasList(m, i, s.init))
      && (s.For? && s.cond.Some? ==> OpAt(m, i + SizeList(s.init), Jump(y.test))));
    has
  }

  ghost predicate HasTest(m: seq<Op>, i: int, cond: Option<Expr>, top: int) {
    if cond.None? then OpAt(m, i, Jump(top))
    else HasE(m, i, cond.value) && OpAt(m, i + SizeE(cond.value), JumpTrue(top))
  }

  ghost predicate HasSS(m: seq<Op>, i: int, ss: Stmts, l: Labels)
    decreases ss, 0
  {
    var has := forall u: int {:trigger Unfold(u)} :: Unfold(u) ==> (
      ss.End?
      || (HasS(m, i, ss.first, l) && HasSS(m, i + SizeS(ss.first), ss.rest, Seen(l, FirstS(ss.first, i)))));
    has
  }

  ghost predicate HasDefault(m: seq<Op>, i: int, default: Option<Stmts>, l: Labels)
    decreases default, 1
  {
    var has := forall u: int {:trigger Unfold(u)} :: Unfold(u) ==> (
      OpAt(m, i, Pop)
      && if default.None? then OpAt(m, i + 1, Push(Unhandled)) && OpAt(m, i + 2, Throw)
         else HasSS(m, i + 1, default.value, l));
    has
  }

  ghost predicate HasTests(m: seq<Op>, i: int, e: Expr, more: Exprs, body: int, after: int)
    decreases more
  {
    var has := forall u: int {:trigger Unfold(u)} :: Unfold(u) ==> (
      HasE(m, i, e)
      && if more.Nil? then OpAt(m, i + SizeE(e), JumpIsnt(after))
         else
           OpAt(m, i + SizeE(e), JumpIs(body)) && HasTests(m, i + SizeE(e) + 1, more.head, more.tail, body, after));
    has
  }

  ghost predicate HasCases(m: seq<Op>, i: int, cases: Cases, end: int, l: Labels)
    decreases cases, 1
  {
    var has := forall u: int {:trigger Unfold(u)} :: Unfold(u) ==> (
      cases.Case? ==> HasCase(m, i, cases, end, l));
    has
  }

  ghost predicate HasCase(m: seq<Op>, i: int, cases: Cases, end: int, l: Labels)
    requires cases.Case?
    decreases cases, 0
  {
    var has := forall u: int {:trigger Open(u)} :: Open(u) ==> (
      var j := i + SizeTests(cases.e, cases.more);
      var k := j + SizeSS(cases.body) + 1;
      HasTests(m, i, cases.e, cases.more, j, k) && HasSS(m, j, cases.body, l) && OpAt(m, k - 1, Jump(end))
      && HasCases(m, k, cases.rest, end, Seen(l, FirstSS(cases.body, j))));
    has
  }

  /** break and continue stand in loops only. */
  predicate Placed(s: Stmt, loop: bool)
    decreases s
  {
    match s
    case Block(body) => PlacedAll(body, loop)
    case If(_, t) => Placed(t, loop)
    case IfElse(_, t, f) => Placed(t, loop) && Placed(f, loop)
    case Switch(_, cases, default) =>
      PlacedCases(cases, loop) && (default.Some? ==> PlacedAll(default.value, loop))
    case Forever(b) => Placed(b, true)
    case While(_, b) => Placed(b, true)
    case DoWhile(b, _) => Placed(b, true)
    case For(_, _, _, b) => Placed(b, true)
    case Break => loop
    case Continue => loop
    case _ => true
  }

  predicate PlacedAll(ss: Stmts, loop: bool)
    decreases ss
  {
    ss.Seq? ==> Placed(ss.first, loop) && PlacedAll(ss.rest, loop)
  }

  predicate PlacedCases(cases: Cases, loop: bool)
    decreases cases
  {
    cases.Case? ==> PlacedAll(cases.body, loop) && PlacedCases(cases.rest, loop)
  }

  /** No jump goes astray. */
  ghost predicate Straight(m: seq<Op>) {
    var sealed := forall u: int {:trigger Open(u)} :: Open(u) ==> forall k :: 0 <= k < |m| ==> m[k] != Jump(Nowhere);
    sealed
  }

  lemma StraightAt(m: seq<Op>, i: int, op: Op)
    ensures Straight(m) && OpAt(m, i, op) ==> op != Jump(Nowhere)
  {
    if Straight(m) { assert Open(0); }
  }

  /** A first continue that was compiled jumps forward to where continue goes. */
  ghost predicate Sound(m: seq<Op>, l: Labels) {
    Straight(m) && (l.Loop? && l.cont.Fwd? && l.cont.first.Some? ==> OpAt(m, l.cont.first.value, Jump(l.cont.to)))
  }

  lemma {:induction false} FirstSound(m: seq<Op>, i: int, s: Stmt, l: Labels)
    requires HasS(m, i, s, l) && Sound(m, l)
    ensures Sound(m, Seen(l, FirstS(s, i)))
    decreases s, 1
  {
    if s.Block? {
      BlockParts(m, i, s, l);
      AllFirstSound(m, i, s.body, l);
    } else if s.If? {
      var j := i + SizeE(s.c) + 1;
      IfParts(m, i, s, l, j);
      FirstSound(m, j, s.t, l);
    } else if s.IfElse? {
      var j := i + SizeE(s.c) + 1;
      IfElseFirstSound(m, i, s, l, j, j + SizeS(s.t) + 1);
    } else if s.Switch? {
      SwitchFirstSound(m, i, s, l);
    } else if s.Continue? {
      JumpParts(m, i, s, l);
    }
  }

  lemma {:induction false} IfElseFirstSound(m: seq<Op>, i: int, s: Stmt, l: Labels, j: int, k: int)
    requires s.IfElse? && HasS(m, i, s, l) && Sound(m, l) && j == i + SizeE(s.c) + 1 && k == j + SizeS(s.t) + 1
    ensures Sound(m, Seen(l, FirstS(s, i)))
    decreases s, 0
  {
    IfElseParts(m, i, s, l, j, k);
    FirstSound(m, j, s.t, l);
    FirstSound(m, k, s.f, Seen(l, FirstS(s.t, j)));
    SeenTwice(l, FirstS(s.t, j), FirstS(s.f, k));
  }

  lemma {:induction false} SwitchFirstSound(m: seq<Op>, i: int, s: Stmt, l: Labels)
    requires s.Switch? && HasS(m, i, s, l) && Sound(m, l)
    ensures Sound(m, Seen(l, FirstS(s, i)))
    decreases s, 0
  {
    var j := i + SizeE(s.e);
    var k := j + SizeCases(s.cases);
    SwitchParts(m, i, s, l, j, k, i + SizeS(s));
    CasesFirstSound(m, j, s.cases, i + SizeS(s), l);
    DefaultFirstSound(m, k, s.default, Seen(l, FirstCases(s.cases, j)));
    SeenTwice(l, FirstCases(s.cases, j), FirstDefault(s.default, k));
  }

  lemma {:induction false} DefaultFirstSound(m: seq<Op>, i: int, default: Option<Stmts>, l: Labels)
    requires HasDefault(m, i, default, l) && Sound(m, l)
    ensures Sound(m, Seen(l, FirstDefault(default, i)))
    decreases default, 2
  {
    DefaultParts(m, i, default, l);
    if default.Some? { AllFirstSound(m, i + 1, default.value, l); } else { SeenTwice(l, None, None); }
  }

  lemma SeenTwice(l: Labels, a: Option<int>, b: Option<int>)
    ensures Seen(Seen(l, a), b) == Seen(l, Or1(a, b))
    ensures Seen(l, None) == l
  {
  }

  lemma {:induction false} AllFirstSound(m: seq<Op>, i: int, ss: Stmts, l: Labels)
    requires HasSS(m, i, ss, l) && Sound(m, l)
    ensures Sound(m, Seen(l, FirstSS(ss, i)))
    decreases ss
  {
    if ss.Seq? {
      var j := i + SizeS(ss.first);
      MoreParts(m, i, ss, l);
      FirstSound(m, i, ss.first, l);
      AllFirstSound(m, j, ss.rest, Seen(l, FirstS(ss.first, i)));
      SeenTwice(l, FirstS(ss.first, i), FirstSS(ss.rest, j));
    }
  }

  lemma {:induction false} CasesFirstSound(m: seq<Op>, i: int, cases: Cases, end: int, l: Labels)
    requires HasCases(m, i, cases, end, l) && Sound(m, l)
    ensures Sound(m, Seen(l, FirstCases(cases, i)))
    decreases cases
  {
    if cases.Case? {
      var j := i + SizeTests(cases.e, cases.more);
      var k := j + SizeSS(cases.body) + 1;
      CasesParts(m, i, cases, end, l, j, k);
      AllFirstSound(m, j, cases.body, l);
      CasesFirstSound(m, k, cases.rest, end, Seen(l, FirstSS(cases.body, j)));
      SeenTwice(l, FirstSS(cases.body, j), FirstCases(cases.rest, k));
    }
  }

  // A continue that is the first instruction of a forever loop is compiled as if
  // it were chained to itself, and its jump goes astray.

  /** The code of s starts with a continue of the enclosing loop. */
  predicate Leading(s: Stmt)
    decreases s
  {
    s.Continue? || (s.Block? && LeadingAll(s.body))
  }

  predicate LeadingAll(ss: Stmts)
    decreases ss
  {
    ss.Seq? && (Leading(ss.first) || (SizeS(ss.first) == 0 && LeadingAll(ss.rest)))
  }

  /** No forever loop starts with a continue. */
  predicate Sane(s: Stmt)
    decreases s
  {
    match s
    case Block(body) => SaneAll(body)
    case If(_, t) => Sane(t)
    case IfElse(_, t, f) => Sane(t) && Sane(f)
    case Switch(_, cases, default) => SaneCases(cases) && (default.Some? ==> SaneAll(default.value))
    case Forever(b) => Sane(b) && !Leading(b)
    case While(_, b) => Sane(b)
    case DoWhile(b, _) => Sane(b)
    case For(_, _, _, b) => Sane(b)
    case _ => true
  }

  predicate SaneAll(ss: Stmts)
    decreases ss
  {
    ss.Seq? ==> Sane(ss.first) && SaneAll(ss.rest)
  }

  predicate SaneCases(cases: Cases)
    decreases cases
  {
    cases.Case? ==> SaneAll(cases.body) && SaneCases(cases.rest)
  }

  /** The label that continue goes back to lies before n, or at n if the code there does not start with a continue. */
  predicate Clear(l: Labels, n: int, leading: bool) {
    l.Loop? && l.cont.Back? ==> l.cont.to < n || (l.cont.to == n && !leading)
  }

  // ---------------------------------------------------------------- functions

  /** The last statement of a function leaves its value on the stack. */
  function SizeTop(s: Stmt, last: bool): nat {
    if last && (s.ExprStmt? || s.Return?) then SizeE(s.e)
    else if last && s.ReturnNil? then 0
    else SizeS(s)
  }

  ghost predicate HasTop(m: seq<Op>, i: int, s: Stmt, last: bool) {
    var has := forall u: int {:trigger Unfold(u)} :: Unfold(u) ==> (
      if last && (s.ExprStmt? || s.Return?) then HasE(m, i, s.e)
      else if last && s.ReturnNil? then true
      else HasS(m, i, s, NoLoop));
    has
  }

  /** m is the code of the function body from instruction i to the end. */
  ghost predicate HasF(m: seq<Op>, i: int, body: Stmts)
    decreases body
  {
    var has := forall u: int {:trigger Unfold(u)} :: Unfold(u) ==> (
      if body.End? then i == |m|
      else HasTop(m, i, body.first, body.rest.End?) && HasF(m, i + SizeTop(body.first, body.rest.End?), body.rest));
    has
  }

  /** Every statement of the body can be compiled: no stray break or continue. */
  predicate PlacedF(body: Stmts)
    decreases body
  {
    body.Seq? ==> Placed(body.first, false) && PlacedF(body.rest)
  }

  /** No forever loop of the body starts with a continue. */
  predicate SaneF(body: Stmts)
    decreases body
  {
    body.Seq? ==> Sane(body.first) && SaneF(body.rest)
  }

  // The parts of a layout.

  lemma TestParts(m: seq<Op>, i: int, cond: Option<Expr>, top: int)
    requires cond.Some?
    ensures HasTest(m, i, cond, top) ==> HasE(m, i, cond.value) && OpAt(m, i + SizeE(cond.value), JumpTrue(top))
  {
  }

  /** A statement that is a value and what is done with it. */
  lemma ValueParts(m: seq<Op>, i: int, s: Stmt, l: Labels)
    requires s.Return? || (s.ExprStmt? && !s.e.Const?)
    ensures HasS(m, i, s, l) ==> HasE(m, i, s.e) && OpAt(m, i + SizeE(s.e), if s.Return? then Ret else Pop)
  {
    if HasS(m, i, s, l) { assert Unfold(0); }
  }

  /** A statement that is one instruction. */
  lemma JumpParts(m: seq<Op>, i: int, s: Stmt, l: Labels)
    ensures HasS(m, i, s, l) && s.ReturnNil? ==> OpAt(m, i, RetNil)
    ensures HasS(m, i, s, l) && s.Break? && l.Loop? ==> OpAt(m, i, Jump(l.brk))
    ensures HasS(m, i, s, l) && s.Continue? ==> OpAt(m, i, Jump(ContTarget(l, i)))
  {
    if HasS(m, i, s, l) { assert Unfold(0); }
  }

  lemma TopParts(m: seq<Op>, i: int, s: Stmt, last: bool)
    ensures HasTop(m, i, s, last) && last && (s.ExprStmt? || s.Return?) ==> HasE(m, i, s.e)
    ensures HasTop(m, i, s, last) && !(last && (s.ExprStmt? || s.Return? || s.ReturnNil?)) ==> HasS(m, i, s, NoLoop)
  {
    if HasTop(m, i, s, last) { assert Unfold(0); }
  }

  lemma BodyParts(m: seq<Op>, i: int, body: Stmts)
    ensures HasF(m, i, body) && body.End? ==> i == |m|
    ensures HasF(m, i, body) && body.Seq?
        ==> HasTop(m, i, body.first, body.rest.End?) && HasF(m, i + SizeTop(body.first, body.rest.End?), body.rest)
  {
    if HasF(m, i, body) { assert Unfold(0); }
  }

  lemma MoreParts(m: seq<Op>, i: int, ss: Stmts, l: Labels)
    requires ss.Seq?
    ensures HasSS(m, i, ss, l) ==> HasS(m, i, ss.first, l) && HasSS(m, i + SizeS(ss.first), ss.rest, Seen(l, FirstS(ss.first, i)))
  {
    if HasSS(m, i, ss, l) { assert Unfold(0); }
  }

  lemma BlockParts(m: seq<Op>, i: int, s: Stmt, l: Labels)
    requires s.Block?
    ensures HasS(m, i, s, l) ==> HasSS(m, i, s.body, l)
  {
    if HasS(m, i, s, l) { assert Unfold(0); }
  }

  lemma IfParts(m: seq<Op>, i: int, s: Stmt, l: Labels, j: int)
    requires s.If? && j == i + SizeE(s.c) + 1
    ensures HasS(m, i, s, l) ==> HasE(m, i, s.c) && OpAt(m, j - 1, JumpFalse(j + SizeS(s.t))) && HasS(m, j, s.t, l)
  {
    if HasS(m, i, s, l) { assert Unfold(0); }
  }

  lemma IfElseParts(m: seq<Op>, i: int, s: Stmt, l: Labels, j: int, k: int)
    requires s.IfElse? && j == i + SizeE(s.c) + 1 && k == j + SizeS(s.t) + 1
    ensures HasS(m, i, s, l) ==> HasE(m, i, s.c) && OpAt(m, j - 1, JumpFalse(k)) && HasS(m, j, s.t, l)
    ensures HasS(m, i, s, l) ==> OpAt(m, k - 1, Jump(k + SizeS(s.f))) && HasS(m, k, s.f, Seen(l, FirstS(s.t, j)))
  {
    Parts(m, i, s, l);
    if HasS(m, i, s, l) { IfElseInside(m, i, s, l, j, k); }
  }

  lemma IfElseInside(m: seq<Op>, i: int, s: Stmt, l: Labels, j: int, k: int)
    requires s.IfElse? && HasIfElse(m, i, s, l) && j == i + SizeE(s.c) + 1 && k == j + SizeS(s.t) + 1
    ensures HasE(m, i, s.c) && OpAt(m, j - 1, JumpFalse(k)) && HasS(m, j, s.t, l)
    ensures OpAt(m, k - 1, Jump(k + SizeS(s.f))) && HasS(m, k, s.f, Seen(l, FirstS(s.t, j)))
  {
    assert Open(0);
  }

  lemma Parts(m: seq<Op>, i: int, s: Stmt, l: Labels)
    ensures s.IfElse? ==> (HasS(m, i, s, l) <==> HasIfElse(m, i, s, l))
    ensures s.Switch? ==> (HasS(m, i, s, l) <==> HasSwitch(m, i, s, l))
    ensures IsLoop(s) ==> (HasS(m, i, s, l) <==> HasLoop(m, i, s))
  {
    assert Unfold(0);
  }

  lemma CaseParts(m: seq<Op>, i: int, cases: Cases, end: int, l: Labels)
    requires cases.Case?
    ensures HasCases(m, i, cases, end, l) <==> HasCase(m, i, cases, end, l)
  {
    assert Unfold(0);
  }

  lemma SwitchParts(m: seq<Op>, i: int, s: Stmt, l: Labels, j: int, k: int, end: int)
    requires s.Switch? && j == i + SizeE(s.e) && k == j + SizeCases(s.cases) && end == i + SizeS(s)
    ensures HasS(m, i, s, l)
        ==> HasE(m, i, s.e) && HasCases(m, j, s.cases, end, l) && HasDefault(m, k, s.default, Seen(l, FirstCases(s.cases, j)))
    ensures end == k + SizeDefault(s.default)
  {
    Parts(m, i, s, l);
    if HasS(m, i, s, l) { assert Open(0); }
  }

  lemma DefaultParts(m: seq<Op>, i: int, default: Option<Stmts>, l: Labels)
    ensures HasDefault(m, i, default, l) ==> OpAt(m, i, Pop)
    ensures HasDefault(m, i, default, l) && default.Some? ==> HasSS(m, i + 1, default.value, l)
    ensures HasDefault(m, i, default, l) && default.None? ==> OpAt(m, i + 1, Push(Unhandled)) && OpAt(m, i + 2, Throw)
  {
    if HasDefault(m, i, default, l) { assert Unfold(0); }
  }

  lemma LoopParts(m: seq<Op>, i: int, s: Stmt, l: Labels, y: Layout)
    requires IsLoop(s) && y == LayoutOf(s, i)
    ensures HasS(m, i, s, l)
        ==> HasS(m, y.top, y.b, Loop(y.end, y.cont)) && HasList(m, y.inc0, y.inc) && HasTest(m, y.test, y.cond, y.top)
    ensures HasS(m, i, s, l) && s.While? ==> OpAt(m, i, Jump(y.test))
    ensures HasS(m, i, s, l) && s.For? ==> HasList(m, i, s.init) && (s.cond.Some? ==> OpAt(m, i + SizeList(s.init), Jump(y.test)))
  {
    Parts(m, i, s, l);
    if HasS(m, i, s, l) { assert Open(0); }
  }

  lemma TestsParts(m: seq<Op>, i: int, e: Expr, more: Exprs, body: int, after: int)
    ensures HasTests(m, i, e, more, body, after)
        ==> HasE(m, i, e) && OpAt(m, i + SizeE(e), if more.Nil? then JumpIsnt(after) else JumpIs(body))
    ensures HasTests(m, i, e, more, body, after) && more.Cons? ==> HasTests(m, i + SizeE(e) + 1, more.head, more.tail, body, after)
  {
    if HasTests(m, i, e, more, body, after) { assert Unfold(0); }
  }

  lemma CasesParts(m: seq<Op>, i: int, cases: Cases, end: int, l: Labels, j: int, k: int)
    requires cases.Case? && j == i + SizeTests(cases.e, cases.more) && k == j + SizeSS(cases.body) + 1
    ensures HasCases(m, i, cases, end, l) ==> HasTests(m, i, cases.e, cases.more, j, k) && HasSS(m, j, cases.body, l)
    ensures HasCases(m, i, cases, end, l)
        ==> OpAt(m, k - 1, Jump(end)) && HasCases(m, k, cases.rest, end, Seen(l, FirstSS(cases.body, j)))
  {
    CaseParts(m, i, cases, end, l);
    if HasCases(m, i, cases, end, l) { assert Open(0); }
  }
}
