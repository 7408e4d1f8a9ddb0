/**
  Where the continues of a compiled function land.  The compiler tests whether the label
  to go back to lies before the end of the code; exactly when it is the end of the code,
  because nothing of the loop has been emitted yet, the jump goes astray.
  */
module Landing {
  import opened Ast
  import opened Ops
  import opened Bytes
  import opened Encoding
  import opened LayoutExpr
  import opened LayoutStmt
  import opened Build
  import opened Seal

  /** The bytes of instruction i are a jump to the label of the loop, or to its first continue. */
  ghost predicate LandsAt(f: Fn, pos: seq<int>, i: int, l: Labels) {
    var t := ContLabel(l);
    0 <= i < |pos| && 0 <= t < |pos| && 0 <= pos[i] < |f.code| && Decode(f, pos[i]) == Parsed([Jump(pos[t])], 3)
  }

  /** Every continue in s, whose code starts at instruction i, lands. */
  ghost predicate LandS(f: Fn, pos: seq<int>, i: int, s: Stmt, l: Labels)
    decreases s
  {
    var land := forall u: int {:trigger Unfold(u)} :: Unfold(u) ==> (
      match s
      case Block(body) => LandSS(f, pos, i, body, l)
      case If(c, t) => LandS(f, pos, i + SizeE(c) + 1, t, l)
      case IfElse(c, t, e) =>
        var j := i + SizeE(c) + 1;
        LandS(f, pos, j, t, l) && LandS(f, pos, j + SizeS(t) + 1, e, Seen(l, FirstS(t, j)))
      case Switch(e, cases, default) =>
        var j := i + SizeE(e);
        LandCases(f, pos, j, cases, l) && LandDefault(f, pos, j + SizeCases(cases), default, Seen(l, FirstCases(cases, j)))
      case Continue => LandsAt(f, pos, i, l)
      case ExprStmt(_) | Return(_) | ReturnNil | Break => true
      case _ => LandS(f, pos, LayoutOf(s, i).top, s.b, Loop(LayoutOf(s, i).end, LayoutOf(s, i).cont)));
    land
  }

  ghost predicate LandSS(f: Fn, pos: seq<int>, i: int, ss: Stmts, l: Labels)
    decreases ss, 0
  {
    var land := forall u: int {:trigger Unfold(u)} :: Unfold(u) ==> (
      ss.Seq? ==> LandS(f, pos, i, ss.first, l) && LandSS(f, pos, i + SizeS(ss.first), ss.rest, Seen(l, FirstS(ss.first, i))));
    land
  }

  ghost predicate LandDefault(f: Fn, pos: seq<int>, i: int, default: Option<Stmts>, l: Labels)
    decreases default, 1
  {
    default.Some? ==> LandSS(f, pos, i + 1, default.value, l)
  }

  ghost predicate LandCases(f: Fn, pos: seq<int>, i: int, cases: Cases, l: Labels)
    decreases cases, 0
  {
    var land := forall u: int {:trigger Unfold(u)} :: Unfold(u) ==> (
      cases.Case? ==>
        var j := i + SizeTests(cases.e, cases.more);
        LandSS(f, pos, j, cases.body, l) && LandCases(f, pos, j + SizeSS(cases.body) + 1, cases.rest, Seen(l, FirstSS(cases.body, j))));
    land
  }

  // The parts of these.

  lemma BlockLands(f: Fn, pos: seq<int>, i: int, s: Stmt, l: Labels)
    ensures s.Block? ==> (LandS(f, pos, i, s, l) <==> LandSS(f, pos, i, s.body, l))
    ensures s.If? ==> (LandS(f, pos, i, s, l) <==> LandS(f, pos, i + SizeE(s.c) + 1, s.t, l))
    ensures s.Continue? ==> (LandS(f, pos, i, s, l) <==> LandsAt(f, pos, i, l))
    ensures s.ExprStmt? || s.Return? || s.ReturnNil? || s.Break? ==> LandS(f, pos, i, s, l)
  {
    assert Unfold(0);
  }

  lemma IfElseLands(f: Fn, pos: seq<int>, i: int, s: Stmt, l: Labels, j: int, k: int)
    requires s.IfElse? && j == i + SizeE(s.c) + 1 && k == j + SizeS(s.t) + 1
    ensures LandS(f, pos, i, s, l) <==> LandS(f, pos, j, s.t, l) && LandS(f, pos, k, s.f, Seen(l, FirstS(s.t, j)))
  {
    assert Unfold(0);
  }

  lemma SwitchLands(f: Fn, pos: seq<int>, i: int, s: Stmt, l: Labels, j: int, k: int)
    requires s.Switch? && j == i + SizeE(s.e) && k == j + SizeCases(s.cases)
    ensures LandS(f, pos, i, s, l) <==> LandCases(f, pos, j, s.cases, l) && LandDefault(f, pos, k, s.default, Seen(l, FirstCases(s.cases, j)))
  {
    assert Unfold(0);
  }

  lemma LoopLands(f: Fn, pos: seq<int>, i: int, s: Stmt, l: Labels, y: Layout)
    requires IsLoop(s) && y == LayoutOf(s, i)
    ensures LandS(f, pos, i, s, l) <==> LandS(f, pos, y.top, s.b, Loop(y.end, y.cont))
  {
    assert Unfold(0);
  }

  lemma MoreLands(f: Fn, pos: seq<int>, i: int, ss: Stmts, l: Labels, j: int)
    requires ss.Seq? && j == i + SizeS(ss.first)
    ensures LandSS(f, pos, i, ss, l) <==> LandS(f, pos, i, ss.first, l) && LandSS(f, pos, j, ss.rest, Seen(l, FirstS(ss.first, i)))
  {
    assert Unfold(0);
  }

  lemma CaseLands(f: Fn, pos: seq<int>, i: int, cases: Cases, l: Labels, j: int, k: int)
    requires cases.Case? && j == i + SizeTests(cases.e, cases.more) && k == j + SizeSS(cases.body) + 1
    ensures LandCases(f, pos, i, cases, l)
        <==> LandSS(f, pos, j, cases.body, l) && LandCases(f, pos, k, cases.rest, Seen(l, FirstSS(cases.body, j)))
  {
    assert Unfold(0);
  }

  /** Every continue of a function body lands. */
  ghost predicate LandF(f: Fn, pos: seq<int>, i: int, body: Stmts)
    decreases body
  {
    body.Seq? ==> LandS(f, pos, i, body.first, NoLoop) && LandF(f, pos, i + SizeTop(body.first, body.rest.End?), body.rest)
  }

  /** Finished code, sealed. */
  ghost predicate Settled(g: Gen) {
    var sealed := forall u: int {:trigger Open(u)} :: Open(u) ==> Finished(g);
    sealed
  }

  /** The labels at instruction i of finished code. */
  ghost predicate Ready(g: Gen, i: int, l: Labels) {
    var all := Settled(g) && Aimed(l) && Clear(l, i, false) && i >= 0;
    all
  }

  lemma ReadyLater(g: Gen, i: int, l: Labels, first: Option<int>, j: int)
    requires first.Some? ==> first.value >= i
    ensures Ready(g, i, l) && j >= i ==> Ready(g, j, Seen(l, first)) && Ready(g, j, l)
  {
  }

  lemma ClearLater(g: Gen, i: int, l: Labels, first: Option<int>, j: int, leading: bool)
    ensures Ready(g, i, l) && j > i ==> Clear(l, j, leading) && Clear(Seen(l, first), j, leading)
  {
  }

  /** A continue goes astray exactly if it is what it should go back to; it then jumps by its
      own address. */
  lemma ContinueLands(g: Gen, i: int, l: Labels)
    requires Ready(g, i, l) && HasS(g.m, i, Continue, l) && l.Loop?
    ensures LandsAt(FnOf(g), g.pos, i, l) <==> l.cont != Back(i)
    ensures 0 <= i < |g.pos| && 0 <= g.pos[i] < |g.code|
    ensures l.cont == Back(i) ==> Decode(FnOf(g), g.pos[i]) == Parsed([Jump(2 * g.pos[i] + 3)], 3)
  {
    assert Open(0);
    JumpParts(g.m, i, Continue, l);
    JumpBytes(g, i);
    assert Slot(g, i);
    if l.cont == Back(i) {
      assert Decode(FnOf(g), g.pos[i]) == Parsed([Jump(g.pos[i + 1] + g.pos[i])], 3);
    } else {
      assert g.m[i].to in g.marks;
    }
  }

  lemma {:induction false} LandsWhenSane(g: Gen, i: int, s: Stmt, l: Labels)
    requires Ready(g, i, l) && HasS(g.m, i, s, l) && Placed(s, l.Loop?)
    ensures LandS(FnOf(g), g.pos, i, s, l) <==> Sane(s) && Clear(l, i, Leading(s))
    decreases s, 2
  {
    if s.Block? || s.If? {
      OneLandsWhenSane(g, i, s, l);
    } else if s.IfElse? {
      var j := i + SizeE(s.c) + 1;
      IfElseLandsWhenSane(g, i, s, l, j, j + SizeS(s.t) + 1);
    } else if s.Switch? {
      SwitchFacts(s, l.Loop?);
      SwitchLandsWhenSane(g, i, s, l, i + SizeE(s.e), i + SizeE(s.e) + SizeCases(s.cases), i + SizeS(s));
    } else if IsLoop(s) {
      LoopLandsWhenSane(g, i, s, l, LayoutOf(s, i));
    } else {
      BlockLands(FnOf(g), g.pos, i, s, l);
      if s.Continue? { ContinueLands(g, i, l); }
    }
  }

  lemma {:induction false} OneLandsWhenSane(g: Gen, i: int, s: Stmt, l: Labels)
    requires Ready(g, i, l) && (s.Block? || s.If?) && HasS(g.m, i, s, l) && Placed(s, l.Loop?)
    ensures LandS(FnOf(g), g.pos, i, s, l) <==> Sane(s) && Clear(l, i, Leading(s))
    decreases s, 1
  {
    BlockLands(FnOf(g), g.pos, i, s, l);
    if s.Block? {
      BlockParts(g.m, i, s, l);
      AllLandWhenSane(g, i, s.body, l);
    } else {
      var j := i + SizeE(s.c) + 1;
      IfParts(g.m, i, s, l, j);
      ReadyLater(g, i, l, None, j);
      ClearLater(g, i, l, None, j, Leading(s.t));
      LandsWhenSane(g, j, s.t, l);
    }
  }

  lemma SwitchFacts(s: Stmt, loop: bool)
    requires s.Switch?
    ensures Placed(s, loop) <==> PlacedCases(s.cases, loop) && (s.default.Some? ==> PlacedAll(s.default.value, loop))
    ensures Sane(s) <==> SaneCases(s.cases) && (s.default.Some? ==> SaneAll(s.default.value))
  {
  }

  lemma {:induction false} IfElseLandsWhenSane(g: Gen, i: int, s: Stmt, l: Labels, j: int, k: int)
    requires Ready(g, i, l) && s.IfElse? && HasS(g.m, i, s, l) && Placed(s, l.Loop?)
    requires j == i + SizeE(s.c) + 1 && k == j + SizeS(s.t) + 1
    ensures LandS(FnOf(g), g.pos, i, s, l) <==> Sane(s)
    decreases s, 0
  {
    IfElseParts(g.m, i, s, l, j, k);
    IfElseLands(FnOf(g), g.pos, i, s, l, j, k);
    FirstFrom(s.t, j);
    var first := FirstS(s.t, j);
    ReadyLater(g, i, l, first, j);
    ReadyLater(g, i, l, first, k);
    ClearLater(g, i, l, first, j, Leading(s.t));
    ClearLater(g, i, l, first, k, Leading(s.f));
    LandsWhenSane(g, j, s.t, l);
    LandsWhenSane(g, k, s.f, Seen(l, first));
  }

  lemma {:induction false} SwitchLandsWhenSane(g: Gen, i: int, s: Stmt, l: Labels, j: int, k: int, end: int)
    requires Ready(g, i, l) && s.Switch? && HasS(g.m, i, s, l)
    requires PlacedCases(s.cases, l.Loop?) && (s.default.Some? ==> PlacedAll(s.default.value, l.Loop?))
    requires j == i + SizeE(s.e) && k == j + SizeCases(s.cases) && end == i + SizeS(s)
    ensures LandS(FnOf(g), g.pos, i, s, l) <==> SaneCases(s.cases) && (s.default.Some? ==> SaneAll(s.default.value))
    decreases s, 0
  {
    SwitchParts(g.m, i, s, l, j, k, end);
    SwitchLands(FnOf(g), g.pos, i, s, l, j, k);
    ReadyLater(g, i, l, None, j);
    CasesLandWhenSane(g, j, s.cases, end, l);
    DefaultOfSwitch(g, j, k, s.cases, s.default, l);
  }

  lemma {:induction false} DefaultOfSwitch(g: Gen, j: int, k: int, cases: Cases, default: Option<Stmts>, l: Labels)
    requires Ready(g, j, l) && k == j + SizeCases(cases) && HasDefault(g.m, k, default, Seen(l, FirstCases(cases, j)))
    requires default.Some? ==> PlacedAll(default.value, l.Loop?)
    ensures LandDefault(FnOf(g), g.pos, k, default, Seen(l, FirstCases(cases, j))) <==> (default.Some? ==> SaneAll(default.value))
    decreases default, 2
  {
    CasesFirstFrom(cases, j);
    ReadyLater(g, j, l, FirstCases(cases, j), k);
    DefaultLandsWhenSane(g, k, default, Seen(l, FirstCases(cases, j)));
  }

  lemma {:induction false} DefaultLandsWhenSane(g: Gen, i: int, default: Option<Stmts>, l: Labels)
    requires Ready(g, i, l) && HasDefault(g.m, i, default, l) && (default.Some? ==> PlacedAll(default.value, l.Loop?))
    ensures LandDefault(FnOf(g), g.pos, i, default, l) <==> (default.Some? ==> SaneAll(default.value))
    decreases default, 1
  {
    DefaultParts(g.m, i, default, l);
    ReadyLater(g, i, l, None, i + 1);
    if default.Some? { ClearLater(g, i, l, None, i + 1, LeadingAll(default.value)); AllLandWhenSane(g, i + 1, default.value, l); }
  }

  lemma {:induction false} LoopLandsWhenSane(g: Gen, i: int, s: Stmt, l: Labels, y: Layout)
    requires Settled(g) && IsLoop(s) && HasS(g.m, i, s, l) && Placed(s, l.Loop?) && i >= 0 && y == LayoutOf(s, i)
    ensures LandS(FnOf(g), g.pos, i, s, l) <==> Sane(s)
    decreases s, 0
  {
    LoopParts(g.m, i, s, l, y);
    LoopLands(FnOf(g), g.pos, i, s, l, y);
    LandsWhenSane(g, y.top, s.b, Loop(y.end, y.cont));
  }

  lemma {:induction false} AllLandWhenSane(g: Gen, i: int, ss: Stmts, l: Labels)
    requires Ready(g, i, l) && HasSS(g.m, i, ss, l) && PlacedAll(ss, l.Loop?)
    ensures LandSS(FnOf(g), g.pos, i, ss, l) <==> SaneAll(ss) && Clear(l, i, LeadingAll(ss))
    decreases ss, 0
  {
    if ss.Seq? {
      var j, first := i + SizeS(ss.first), FirstS(ss.first, i);
      MoreParts(g.m, i, ss, l);
      MoreLands(FnOf(g), g.pos, i, ss, l, j);
      LandsWhenSane(g, i, ss.first, l);
      FirstFrom(ss.first, i);
      ReadyLater(g, i, l, first, j);
      AllLandWhenSane(g, j, ss.rest, Seen(l, first));
      ClearLater(g, i, l, first, j, LeadingAll(ss.rest));
    }
  }

  lemma {:induction false} CasesLandWhenSane(g: Gen, i: int, cases: Cases, end: int, l: Labels)
    requires Ready(g, i, l) && HasCases(g.m, i, cases, end, l) && PlacedCases(cases, l.Loop?)
    ensures LandCases(FnOf(g), g.pos, i, cases, l) <==> SaneCases(cases)
    decreases cases, 0
  {
    if cases.Case? {
      var j := i + SizeTests(cases.e, cases.more);
      var k := j + SizeSS(cases.body) + 1;
      CasesParts(g.m, i, cases, end, l, j, k);
      CaseLands(FnOf(g), g.pos, i, cases, l, j, k);
      AllFirstFrom(cases.body, j);
      ReadyLater(g, i, l, FirstSS(cases.body, j), j);
      ReadyLater(g, i, l, FirstSS(cases.body, j), k);
      ClearLater(g, i, l, None, j, LeadingAll(cases.body));
      AllLandWhenSane(g, j, cases.body, l);
      CasesLandWhenSane(g, k, cases.rest, end, Seen(l, FirstSS(cases.body, j)));
    }
  }

  /** Every continue of the compiled function lands if and only if no forever loop starts with one. */
  lemma {:induction false} EveryContinueLands(g: Gen, i: int, body: Stmts)
    requires Settled(g) && HasF(g.m, i, body) && PlacedF(body) && i >= 0
    ensures LandF(FnOf(g), g.pos, i, body) <==> SaneF(body)
    decreases body
  {
    BodyParts(g.m, i, body);
    if body.Seq? {
      TopLandsWhenSane(g, i, body.first, body.rest.End?);
      EveryContinueLands(g, i + SizeTop(body.first, body.rest.End?), body.rest);
    }
  }

  lemma TopLandsWhenSane(g: Gen, i: int, s: Stmt, last: bool)
    requires Settled(g) && HasTop(g.m, i, s, last) && Placed(s, false) && i >= 0
    ensures LandS(FnOf(g), g.pos, i, s, NoLoop) <==> Sane(s)
  {
    TopParts(g.m, i, s, last);
    BlockLands(FnOf(g), g.pos, i, s, NoLoop);
    if !(last && (s.ExprStmt? || s.Return? || s.ReturnNil?)) { LandsWhenSane(g, i, s, NoLoop); }
  }
}
