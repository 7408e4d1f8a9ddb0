/**
  The one-pass compiler.  What it has to produce is a list of instructions m that has
  the layout of the function; every method emits the bytes of its part of m.
  */
module Codegen {
  import opened Ast
  import opened Ops
  import opened Bytes
  import opened Encoding
  import opened LayoutExpr
  import opened LayoutStmt
  import opened Chains
  import opened Seal

  function Code2(e: Expr): byte
    requires Two(e)
  {
    if e.Compare? then CompareCode(e.cop) else ArithCode(e.aop)
  }

  lemma SpellArith(names: seq<string>, values: seq<Value>, op: ArithOp)
    ensures Spells(names, values, ArithCode(op), [], Arith(op))
  {
  }

  lemma Spell2(names: seq<string>, values: seq<Value>, e: Expr)
    requires Two(e)
    ensures Spells(names, values, Code2(e), [], Op2(e))
  {
    if e.Binary? { SpellArith(names, values, e.aop); }
  }

  lemma EmittedIntact(m: seq<Op>, a: Gen, b: Gen, op: Op, how: How)
    requires Intact(m, a) && OpAt(m, |a.m|, op) && Encoded(b) && Added(a, b, op, how)
    ensures Intact(m, b)
  {
    IntactOpen(m, a);
    IntactOpen(m, b);
  }

  lemma MarkedWaits(m: seq<Op>, g: Gen)
    requires Intact(m, g)
    ensures Waits(g, Marked(g), {}) && Marks(Marked(g), |g.m|, |g.code|)
  {
    IntactOpen(m, g);
    MarkedEncoded(g);
  }

  lemma NamedIntact(m: seq<Op>, g: Gen, names: seq<string>, values: seq<Value>)
    requires Intact(m, g) && g.names <= names && g.values <= values && (Distinct(g.names) ==> Distinct(names))
    requires Listed(names, g.base, NamesIn(m)) && Listed(values, 0, ValuesIn(m))
    ensures Intact(m, WithNames(g, names, values)) && Waits(g, WithNames(g, names, values), {})
  {
    IntactOpen(m, g);
    NamedEncoded(g, names, values);
  }

  lemma PlaceReady(m: seq<Op>, g: Gen, chain: seq<int>, lab: int)
    requires Intact(m, g) && Pends(g, chain, lab, |g.m|)
    ensures Encoded(g) && Chain(g, chain) && lab == LabelOf(g, Head(chain)) && AimedAt(g, chain, |g.m|)
  {
    IntactOpen(m, g);
    assert Open(0);
  }

  lemma PlaceDone(m: seq<Op>, a: Gen, b: Gen, chain: seq<int>)
    requires Intact(m, a) && Patching(a, b, chain, 0)
    ensures Intact(m, b) && Places1(a, b, chain) && b.names == a.names && b.values == a.values && b.prev == ocNop && b.m == a.m && b.base == a.base
  {
    assert Open(0);
    IntactOpen(m, a);
  }

  // ------------------------------------------------------------- loop labels

  /** The compiler's labels of the enclosing loop: the latest break, and where continue goes. */
  datatype Labs = NoLabs | Labs(brk: int, cont: int)

  function ContChain(c: Cont): seq<int> {
    if c.Fwd? && c.first.Some? then [c.first.value] else []
  }

  /** labs are the labels that l describes, and the jumps in bc are the breaks so far. */
  ghost predicate Held(g: Gen, l: Labels, labs: Labs, bc: seq<int>) {
    var all :=
      if l.NoLoop? then labs.NoLabs?
      else labs.Labs? && Pends(g, bc, labs.brk, l.brk) && ContHeld(g, l.cont, labs.cont) && Elems(bc) !! Elems(ContChain(l.cont));
    all
  }

  ghost predicate ContHeld(g: Gen, c: Cont, lab: int) {
    var all := if c.Back? then Marks(g, c.to, lab) else Pends(g, ContChain(c), lab, c.to);
    all
  }

  /** The jumps that wait for the labels of l. */
  function Owned(l: Labels, bc: seq<int>): set<int> {
    if l.NoLoop? then {} else Elems(bc) + Elems(ContChain(l.cont))
  }

  lemma HeldPass(m: seq<Op>, a: Gen, b: Gen, gone: set<int>, l: Labels, labs: Labs, bc: seq<int>)
    requires Owned(l, bc) !! gone
    ensures Intact(m, a) && Passes(a, b, gone) && Held(a, l, labs, bc) ==> Held(b, l, labs, bc)
  {
    if l.Loop? && labs.Labs? {
      PendsPass(m, a, b, gone, bc, labs.brk, l.brk);
      PendsPass(m, a, b, gone, ContChain(l.cont), labs.cont, l.cont.to);
      MarksPass(m, a, b, gone, l.cont.to, labs.cont);
    }
  }

  lemma HeldOn(m: seq<Op>, a: Gen, b: Gen, x: set<int>, l: Labels, labs: Labs, bc: seq<int>)
    ensures Intact(m, a) && Waits(a, b, x) && Held(a, l, labs, bc) ==> Held(b, l, labs, bc)
  {
    WaitsPasses(a, b, x);
    HeldPass(m, a, b, {}, l, labs, bc);
  }

  lemma ContHeldOn(m: seq<Op>, a: Gen, b: Gen, x: set<int>, c: Cont, lab: int)
    ensures Intact(m, a) && Waits(a, b, x) && ContHeld(a, c, lab) ==> ContHeld(b, c, lab)
  {
    WaitsPasses(a, b, x);
    PendsPass(m, a, b, {}, ContChain(c), lab, c.to);
    MarksPass(m, a, b, {}, c.to, lab);
  }

  lemma OwnedBelow(m: seq<Op>, g: Gen, l: Labels, labs: Labs, bc: seq<int>)
    requires Intact(m, g) && Held(g, l, labs, bc)
    ensures Under(Owned(l, bc), |g.m|) && |g.m| !in Owned(l, bc)
  {
    if l.Loop? {
      PendsRange(m, g, bc, labs.brk, l.brk);
      if l.cont.Fwd? { PendsRange(m, g, ContChain(l.cont), labs.cont, l.cont.to); }
    }
  }

  /** Code was added; the labels are now l1, and the jumps in x wait for them besides. */
  ghost predicate Stated(a: Gen, b: Gen, l: Labels, bc: seq<int>, l1: Labels, labs1: Labs, bc1: seq<int>, x: set<int>) {
    var all :=
      Waits(a, b, x) && Held(b, l1, labs1, bc1) && Owned(l1, bc1) == Owned(l, bc) + x;
    all
  }

  /** Code that has nothing to do with the labels. */
  lemma StatedPlain(m: seq<Op>, a: Gen, b: Gen, l: Labels, labs: Labs, bc: seq<int>)
    requires Intact(m, a) && Held(a, l, labs, bc) && Waits(a, b, {})
    ensures Stated(a, b, l, bc, l, labs, bc, {})
  {
    HeldOn(m, a, b, {}, l, labs, bc);
  }

  lemma StatedTrans(a: Gen, b: Gen, c: Gen, l: Labels, bc: seq<int>, l1: Labels, labs1: Labs, bc1: seq<int>, x: set<int>, l2: Labels, labs2: Labs, bc2: seq<int>, y: set<int>)
    requires Stated(a, b, l, bc, l1, labs1, bc1, x) && Stated(b, c, l1, bc1, l2, labs2, bc2, y)
    ensures Stated(a, c, l, bc, l2, labs2, bc2, x + y)
  {
    WaitsTrans(a, b, c, x, y);
  }

  lemma SequenceStated(a: Gen, b: Gen, c: Gen, list: Stmts, l: Labels, bc: seq<int>, l1: Labels, labs0: Labs, bc0: seq<int>, x0: set<int>, labs1: Labs, bc1: seq<int>, x: set<int>)
    requires list.Seq? && l1 == Seen(l, FirstS(list.first, |a.m|)) && |b.m| == |a.m| + SizeS(list.first)
    requires Stated(a, b, l, bc, l1, labs0, bc0, x0) && Stated(b, c, l1, bc0, Seen(l1, FirstSS(list.rest, |b.m|)), labs1, bc1, x)
    ensures Stated(a, c, l, bc, Seen(l, FirstSS(list, |a.m|)), labs1, bc1, x0 + x)
  {
    SeenTwice(l, FirstS(list.first, |a.m|), FirstSS(list.rest, |b.m|));
    StatedTrans(a, b, c, l, bc, l1, labs0, bc0, x0, Seen(l1, FirstSS(list.rest, |b.m|)), labs1, bc1, x);
  }

  /** A jump k over a statement has been added, with the statement. */
  ghost predicate Guarded(a: Gen, b: Gen, k: int, f: int, t: int, l: Labels, bc: seq<int>, l1: Labels, labs1: Labs, bc1: seq<int>, x: set<int>) {
    var all :=
      Waits(a, b, {k} + x) && Pends(b, [k], f, t) && Held(b, l1, labs1, bc1)
      && Owned(l1, bc1) == Owned(l, bc) + x && k !in Owned(l1, bc1) && k !in x;
    all
  }

  /** ForwardJump, then a statement. */
  lemma GuardedDone(m: seq<Op>, a: Gen, b: Gen, c: Gen, k: int, f: int, t: int, l: Labels, labs: Labs, bc: seq<int>, l1: Labels, labs1: Labs, bc1: seq<int>, x: set<int>)
    requires Intact(m, a) && Intact(m, b) && k == |a.m| && |b.m| == k + 1 && Waits(a, b, {k}) && Pends(b, [k], f, t)
    requires Held(a, l, labs, bc) && Stated(b, c, l, bc, l1, labs1, bc1, x)
    ensures Guarded(a, c, k, f, t, l, bc, l1, labs1, bc1, x)
  {
    OwnedBelow(m, a, l, labs, bc);
    NewAbove(b, c, x);
    WaitsTrans(a, b, c, {k}, x);
    PendsOn(m, b, c, x, [k], f, t);
  }

  /** The label of the jump over a statement is placed after it. */
  lemma GuardedPlaced(m: seq<Op>, a: Gen, b: Gen, c: Gen, k: int, f: int, t: int, l: Labels, bc: seq<int>, l1: Labels, labs1: Labs, bc1: seq<int>, x: set<int>)
    requires Intact(m, b) && Guarded(a, b, k, f, t, l, bc, l1, labs1, bc1, x)
    requires Places1(b, c, [k]) && Waits(a, c, {k} + x - {k})
    ensures Stated(a, c, l, bc, l1, labs1, bc1, x)
  {
    ElemsMore([], k);
    PlacesPasses(b, c, [k]);
    HeldPass(m, b, c, {k}, l1, labs1, bc1);
    assert {k} + x - {k} == x;
  }

  /** The jump e over the else part waits, and nothing of the then part is in its way. */
  ghost predicate Skips(a: Gen, b: Gen, e: int, end: int, t: int, l0: Labels, bc0: seq<int>, l: Labels, labs: Labs, bc: seq<int>, x0: set<int>) {
    var all :=
      Waits(a, b, x0 + {e}) && Pends(b, [e], end, t) && Held(b, l, labs, bc) && Owned(l, bc) == Owned(l0, bc0) + x0
      && e !in Owned(l, bc) && e !in x0;
    all
  }

  lemma ElseReady(m: seq<Op>, a: Gen, c: Gen, d: Gen, j: int, f: int, t: int, e: int, end: int, t1: int, l0: Labels, bc0: seq<int>, l: Labels, labs: Labs, bc: seq<int>, x0: set<int>)
    requires Intact(m, c) && e == |c.m| && Guarded(a, c, j, f, t, l0, bc0, l, labs, bc, x0)
    requires Waits(a, d, {j} + x0 + {e} - {j}) && Passes(c, d, {j}) && Pends(d, [e], end, t1) && j != e
    ensures Skips(a, d, e, end, t1, l0, bc0, l, labs, bc, x0)
  {
    OwnedBelow(m, c, l, labs, bc);
    HeldPass(m, c, d, {j}, l, labs, bc);
    assert {j} + x0 + {e} - {j} == x0 + {e};
  }

  lemma ElseDone(m: seq<Op>, a: Gen, d: Gen, h: Gen, e: int, end: int, t: int, l0: Labels, bc0: seq<int>, l: Labels, labs: Labs, bc: seq<int>, x0: set<int>, l1: Labels, labs1: Labs, bc1: seq<int>, y: set<int>)
    requires Intact(m, d) && e < |d.m| && Skips(a, d, e, end, t, l0, bc0, l, labs, bc, x0)
    requires Stated(d, h, l, bc, l1, labs1, bc1, y)
    ensures Waits(a, h, x0 + {e} + y) && Pends(h, [e], end, t) && e !in Owned(l1, bc1) && e !in x0 && e !in y
  {
    NewAbove(d, h, y);
    WaitsTrans(a, d, h, x0 + {e}, y);
    PendsOn(m, d, h, y, [e], end, t);
  }

  lemma ElsePlaced(m: seq<Op>, a: Gen, b: Gen, c: Gen, e: int, l0: Labels, bc0: seq<int>, l1: Labels, labs1: Labs, bc1: seq<int>, x0: set<int>, y: set<int>)
    requires Intact(m, b) && Places1(b, c, [e]) && Held(b, l1, labs1, bc1)
    requires Waits(a, c, x0 + {e} + y - {e}) && e !in Owned(l1, bc1) && e !in x0 && e !in y
    requires Owned(l1, bc1) == Owned(l0, bc0) + x0 + y
    ensures Stated(a, c, l0, bc0, l1, labs1, bc1, x0 + y)
  {
    ElemsMore([], e);
    PlacesPasses(b, c, [e]);
    HeldPass(m, b, c, {e}, l1, labs1, bc1);
    assert x0 + {e} + y - {e} == x0 + y;
  }

  // ---------------------------------------------------- what is to be compiled

  ghost predicate DueAndOr(m: seq<Op>, i: int, and: bool, prev: Expr, rest: Exprs, end: int) {
    var sealed := forall u: int {:trigger Unfold(u)} :: Unfold(u) ==> HasAndOr(m, i, and, prev, rest, end) && end == i + SizeAndOr(prev, rest);
    sealed
  }

  lemma AndOrNextDue(m: seq<Op>, i: int, and: bool, prev: Expr, rest: Exprs, end: int)
    requires rest.Cons?
    ensures DueAndOr(m, i, and, prev, rest, end)
        ==> OpAt(m, i, if and then And(end) else Or(end)) && HasE(m, i + 1, rest.head)
            && DueAndOr(m, i + 1 + SizeE(rest.head), and, rest.head, rest.tail, end)
  {
    if DueAndOr(m, i, and, prev, rest, end) { assert Unfold(0); }
  }

  lemma AndOrLastDue(m: seq<Op>, i: int, and: bool, prev: Expr, end: int)
    ensures DueAndOr(m, i, and, prev, Nil, end)
        ==> (Checks(prev) ==> OpAt(m, i, Bool1)) && end == i + (if Checks(prev) then 1 else 0)
  {
    if DueAndOr(m, i, and, prev, Nil, end) { assert Unfold(0); }
  }

  ghost predicate DueIn(m: seq<Op>, i: int, list: Exprs, end: int) {
    var sealed := forall u: int {:trigger Unfold(u)} :: Unfold(u) ==> HasIn(m, i, list, end) && end == i + SizeIn(list);
    sealed
  }

  lemma InNextDue(m: seq<Op>, i: int, list: Exprs, end: int)
    requires list.Cons?
    ensures DueIn(m, i, list, end)
        ==> HasE(m, i, list.head) && OpAt(m, i + SizeE(list.head), if list.tail.Nil? then Compare2(Is) else InJump(end))
            && DueIn(m, i + SizeE(list.head) + 1, list.tail, end)
    ensures DueIn(m, i, list, end) && list.tail.Nil? ==> end == i + SizeE(list.head) + 1
  {
    if DueIn(m, i, list, end) { assert Unfold(0); assert SizeIn(list) == SizeE(list.head) + 1 + SizeIn(list.tail); }
  }

  ghost predicate DueTests(m: seq<Op>, i: int, e: Expr, more: Exprs, body: int, after: int) {
    var sealed := forall u: int {:trigger Unfold(u)} :: Unfold(u) ==> HasTests(m, i, e, more, body, after) && body == i + SizeTests(e, more);
    sealed
  }

  lemma TestsNextDue(m: seq<Op>, i: int, e: Expr, more: Exprs, body: int, after: int)
    ensures DueTests(m, i, e, more, body, after)
        ==> HasE(m, i, e) && OpAt(m, i + SizeE(e), if more.Nil? then JumpIsnt(after) else JumpIs(body))
    ensures DueTests(m, i, e, more, body, after) && more.Cons? ==> DueTests(m, i + SizeE(e) + 1, more.head, more.tail, body, after)
    ensures DueTests(m, i, e, more, body, after) && more.Nil? ==> body == i + SizeE(e) + 1
  {
    if DueTests(m, i, e, more, body, after) { assert Unfold(0); }
  }

  lemma DueRest(m: seq<Op>, i: int, j: int, e: Expr, end: int)
    requires Long(e) && !(e.In? && e.rest.Nil?) && j == i + SizeE(Operand(e)) && end == i + SizeE(e)
    ensures HasRest(m, i, j, e) && e.Nary? ==> if Joins(e.aop, e.rest) then HasJoin(m, j, e.rest, 1) else HasNary(m, j, e.aop, e.rest)
    ensures HasRest(m, i, j, e) && e.Product? ==> HasFactors(m, j, e.rest) && HasDivisors(m, j + SizeFactors(e.rest), e.rest, false)
    ensures HasRest(m, i, j, e) && e.AndOr? ==> DueAndOr(m, j, e.and, e.e, e.rest, end)
    ensures HasRest(m, i, j, e) && e.In? ==> DueIn(m, j, e.rest, end)
    ensures HasRest(m, i, j, e) && e.Cond? ==> HasArms(m, j, e)
  {
    LongSize(e);
    if HasRest(m, i, j, e) { assert Unfold(0); }
  }

  lemma BlockSizes(s: Stmt, i: int)
    requires s.Block?
    ensures SizeS(s) == SizeSS(s.body) && FirstS(s, i) == FirstSS(s.body, i)
    ensures forall loop :: Placed(s, loop) == PlacedAll(s.body, loop)
  {
  }

  lemma IfSizes(s: Stmt, i: int)
    requires s.If?
    ensures SizeS(s) == SizeE(s.c) + 1 + SizeS(s.t) && FirstS(s, i) == FirstS(s.t, i + SizeE(s.c) + 1)
    ensures forall loop :: Placed(s, loop) == Placed(s.t, loop)
  {
  }

  lemma IfElseSizes(s: Stmt, i: int, j: int, k: int)
    requires s.IfElse? && j == i + SizeE(s.c) + 1 && k == j + SizeS(s.t) + 1
    ensures SizeS(s) == SizeE(s.c) + 1 + SizeS(s.t) + 1 + SizeS(s.f) && FirstS(s, i) == Or1(FirstS(s.t, j), FirstS(s.f, k))
    ensures forall loop :: Placed(s, loop) == (Placed(s.t, loop) && Placed(s.f, loop))
  {
  }

  /** The loop y is due, apart from what stands before its body. */
  ghost predicate DueLoop(m: seq<Op>, y: Layout) {
    var all :=
      HasS(m, y.top, y.b, Loop(y.end, y.cont)) && HasList(m, y.inc0, y.inc) && HasTest(m, y.test, y.cond, y.top)
      && y.inc0 == y.top + SizeS(y.b) && y.test == y.inc0 + SizeList(y.inc) && y.end == y.test + SizeTest(y.cond)
      && ContChain(y.cont) == [] && (y.cont.Fwd? ==> y.cont.to == y.inc0);
    all
  }

  lemma LoopIsDue(m: seq<Op>, i: int, s: Stmt, l: Labels, y: Layout)
    requires IsLoop(s) && y == LayoutOf(s, i)
    ensures HasS(m, i, s, l) ==> DueLoop(m, y)
    ensures HasS(m, i, s, l) && s.While? ==> OpAt(m, i, Jump(y.test))
    ensures HasS(m, i, s, l) && s.For? ==> HasList(m, i, s.init) && (s.cond.Some? ==> OpAt(m, i + SizeList(s.init), Jump(y.test)))
  {
    LoopParts(m, i, s, l, y);
  }

  lemma LoopSizes(s: Stmt, i: int, l: Labels)
    requires IsLoop(s)
    ensures FirstS(s, i) == None && Seen(l, FirstS(s, i)) == l
    ensures forall loop :: Placed(s, loop) == Placed(s.b, true)
  {
  }

  lemma DueCase(m: seq<Op>, i: int, cases: Cases, end: int, l: Labels, j: int, k: int)
    requires cases.Case? && j == i + SizeTests(cases.e, cases.more) && k == j + SizeSS(cases.body) + 1
    ensures HasCases(m, i, cases, end, l) ==> DueTests(m, i, cases.e, cases.more, j, k) && HasSS(m, j, cases.body, l)
    ensures HasCases(m, i, cases, end, l)
        ==> OpAt(m, k - 1, Jump(end)) && HasCases(m, k, cases.rest, end, Seen(l, FirstSS(cases.body, j)))
  {
    CasesParts(m, i, cases, end, l, j, k);
  }

  lemma CaseSizes(cases: Cases, i: int, j: int, k: int)
    requires cases.Case? && j == i + SizeTests(cases.e, cases.more) && k == j + SizeSS(cases.body) + 1
    ensures SizeCases(cases) == k - i + SizeCases(cases.rest)
    ensures FirstCases(cases, i) == Or1(FirstSS(cases.body, j), FirstCases(cases.rest, k))
  {
  }

  lemma SwitchSizes(s: Stmt, i: int, j: int, k: int)
    requires s.Switch? && j == i + SizeE(s.e) && k == j + SizeCases(s.cases)
    ensures FirstS(s, i) == Or1(FirstCases(s.cases, j), FirstDefault(s.default, k))
  {
  }

  /** Cases have been added: the jumps in y to the end of the switch wait, with those in x for the labels. */
  ghost predicate Cased(a: Gen, b: Gen, l: Labels, bc: seq<int>, ec: seq<int>, l1: Labels, labs1: Labs, bc1: seq<int>, ec1: seq<int>, lab1: int, end: int, x: set<int>, y: set<int>) {
    var all :=
      Waits(a, b, x + y) && Held(b, l1, labs1, bc1) && Owned(l1, bc1) == Owned(l, bc) + x
      && Pends(b, ec1, lab1, end) && Elems(ec1) == Elems(ec) + y && Elems(ec1) !! Owned(l1, bc1);
    all
  }

  lemma CasedTrans(a: Gen, b: Gen, c: Gen, l: Labels, bc: seq<int>, ec: seq<int>, l1: Labels, labs1: Labs, bc1: seq<int>, ec1: seq<int>, lab1: int, end: int, x: set<int>, y: set<int>, l2: Labels, labs2: Labs, bc2: seq<int>, ec2: seq<int>, lab2: int, x2: set<int>, y2: set<int>)
    requires Cased(a, b, l, bc, ec, l1, labs1, bc1, ec1, lab1, end, x, y) && Cased(b, c, l1, bc1, ec1, l2, labs2, bc2, ec2, lab2, end, x2, y2)
    ensures Cased(a, c, l, bc, ec, l2, labs2, bc2, ec2, lab2, end, x + x2, y + y2)
  {
    WaitsTrans(a, b, c, x + y, x2 + y2);
    assert x + y + (x2 + y2) == x + x2 + (y + y2);
  }

  /** The tests of a case have been added, and the last of their jumps, ka, waits for the next case. */
  ghost predicate CaseBegun(m: seq<Op>, a: Gen, b: Gen, l: Labels, labs: Labs, bc: seq<int>, ec: seq<int>, lab: int, end: int, ka: int, la: int, k: int) {
    var all :=
      Intact(m, a) && Intact(m, b) && |a.m| <= ka < |b.m| && Waits(a, b, {ka}) && Pends(b, [ka], la, k)
      && Held(a, l, labs, bc) && Held(b, l, labs, bc) && Pends(a, ec, lab, end) && Elems(ec) !! Owned(l, bc);
    all
  }

  /** The body of a case, its jump ke to the end of the switch, and the label of the jump ka over it. */
  lemma CaseDone(m: seq<Op>, a: Gen, b: Gen, c: Gen, d: Gen, h: Gen, ka: int, la: int, after: int, lab: int, lab1: int, end: int, l: Labels, labs: Labs, bc: seq<int>, ec: seq<int>, l1: Labels, labs1: Labs, bc1: seq<int>, x: set<int>, ke: int)
    requires Intact(m, a) && Intact(m, b) && Intact(m, c) && Intact(m, d) && |a.m| <= ka < |b.m| <= ke == |c.m|
    requires Waits(a, b, {ka}) && Held(a, l, labs, bc) && Pends(a, ec, lab, end) && Elems(ec) !! Owned(l, bc)
    requires Stated(b, c, l, bc, l1, labs1, bc1, x) && Waits(c, d, {ke}) && Pends(d, ec + [ke], lab1, end)
    requires Places1(d, h, [ka]) && Waits(a, h, {ka} + x + {ke} - {ka})
    ensures Cased(a, h, l, bc, ec, l1, labs1, bc1, ec + [ke], lab1, end, x, {ke})
  {
    PendsRange(m, a, ec, lab, end);
    OwnedBelow(m, a, l, labs, bc);
    OwnedBelow(m, c, l1, labs1, bc1);
    NewAbove(b, c, x);
    ElemsMore(ec, ke);
    ElemsMore([], ka);
    PlacesPasses(d, h, [ka]);
    HeldOn(m, c, d, {ke}, l1, labs1, bc1);
    assert Under(Elems(ec), |a.m|) && Under(Owned(l, bc), |a.m|);
    assert ka !in Elems(ec) && ka !in Owned(l, bc) && ka !in x && ka != ke;
    Apart(Elems(ec), x, |a.m|);
    Apart(Owned(l1, bc1), {ke}, ke);
    HeldPass(m, d, h, {ka}, l1, labs1, bc1);
    PendsPass(m, d, h, {ka}, ec + [ke], lab1, end);
    assert {ka} + x + {ke} - {ka} == x + {ke};
  }

  /** The label at the end of a switch is placed. */
  lemma SwitchPlaced(m: seq<Op>, a: Gen, b: Gen, c: Gen, d: Gen, l: Labels, bc: seq<int>, l1: Labels, labs1: Labs, bc1: seq<int>, ec: seq<int>, lab: int, end: int, x: set<int>, y: set<int>, l2: Labels, labs2: Labs, bc2: seq<int>, x2: set<int>)
    requires Intact(m, a) && Intact(m, b) && Intact(m, c) && Elems(ec) == y
    requires Cased(a, b, l, bc, [], l1, labs1, bc1, ec, lab, end, x, y) && Stated(b, c, l1, bc1, l2, labs2, bc2, x2)
    requires Places1(c, d, ec)
    ensures Stated(a, d, l, bc, l2, labs2, bc2, x + x2)
  {
    PendsRange(m, b, ec, lab, end);
    NewAbove(b, c, x2);
    Apart(y, x2, |b.m|);
    WaitsTrans(a, b, c, x + y, x2);
    WaitsPlaced(m, a, c, d, x + y + x2, ec);
    assert x + y + x2 - y == x + x2;
    PlacesPasses(c, d, ec);
    HeldPass(m, c, d, y, l2, labs2, bc2);
  }

  /** The bytes of a continue: back to cont, or else chained to it. */
  function ContinueCode(code: seq<byte>, cont: int): seq<byte> {
    var operand := if cont != -1 && cont < |code| then cont - |code| - 3 else cont;
    code + [ocJump] + [Hi(operand), Lo(operand)]
  }

  /** Which of the two branches a continue takes, and what it finds there. */
  lemma ContinueBranches(m: seq<Op>, g: Gen, l: Labels, labs: Labs, bc: seq<int>)
    requires Intact(m, g) && Held(g, l, labs, bc) && l.Loop?
    ensures labs.cont != -1 && labs.cont < |g.code| ==> Lands(g, ContTarget(l, |g.m|), labs.cont) && Seen(l, Some(|g.m|)) == l
    ensures !(labs.cont != -1 && labs.cont < |g.code|) ==> l.cont == Back(|g.m|) || (l.cont.Fwd? && l.cont.first.None?)
  {
    if l.cont.Back? {
      MarksLands(m, g, l.cont.to, labs.cont);
    } else if l.cont.first.Some? {
      PendsLands(m, g, l.cont.first.value, labs.cont, l.cont.to);
    } else {
      PendsRange(m, g, [], labs.cont, l.cont.to);
      assert labs.cont == -1;
    }
  }

  /** A label at the end of the code is its address. */
  lemma MarksEnd(m: seq<Op>, g: Gen, lab: int)
    requires Intact(m, g) && Marks(g, |g.m|, lab)
    ensures lab == |g.code|
  {
    IntactOpen(m, g);
    assert Open(0);
  }

  /** The first continue that waits for its label. */
  lemma ContinueChained(m: seq<Op>, a: Gen, b: Gen, l: Labels, labs: Labs, bc: seq<int>, cont: int)
    requires Intact(m, a) && l.Loop? && l.cont.Fwd? && l.cont.first.None? && Held(a, l, labs, bc) && |a.m| !in Owned(l, bc)
    requires Waits(a, b, {|a.m|}) && Pends(b, [] + [|a.m|], cont, l.cont.to)
    ensures Stated(a, b, l, bc, Seen(l, Some(|a.m|)), labs.(cont := cont), bc, {|a.m|})
  {
    var k := |a.m|;
    HeldOn(m, a, b, {k}, l, labs, bc);
    ElemsMore([], k);
    assert [] + [k] == [k];
    var l1 := Seen(l, Some(k));
    assert ContChain(l1.cont) == [k] && k !in Elems(bc);
    assert Owned(l1, bc) == Owned(l, bc) + {k};
  }

  /** Some instruction of m concatenates more values than an operand byte can count. */
  ghost predicate JoinsMany(m: seq<Op>) {
    exists k :: 0 <= k < |m| && m[k].CatN? && m[k].n >= 255
  }

  lemma {:induction false} SizePositive(e: Expr)
    ensures SizeE(e) >= 1
  {
    if Long(e) && !(e.In? && e.rest.Nil?) { LongSize(e); SizePositive(Operand(e)); }
    else if e.Paren? { SizePositive(e.e); }
  }

  /** The layout of a statement that does not use the labels. */
  lemma LabelsUnused(m: seq<Op>, i: int, s: Stmt, l: Labels)
    requires s.ExprStmt? || s.Return? || s.ReturnNil?
    ensures HasS(m, i, s, l) ==> HasS(m, i, s, NoLoop)
  {
    if HasS(m, i, s, l) { assert Unfold(0); }
  }

  class Cgen {
    ghost const m: seq<Op>
    ghost const base: nat
    var code: seq<byte>
    var names: seq<string>
    var values: seq<Value>
    var prevOp: byte
    ghost var g: Gen

    ghost predicate Valid()
      reads this
    {
      var all :=
        code == g.code && names == g.names && values == g.values && prevOp == g.prev && g.base == base && Intact(m, g);
      all
    }

    /** At a size limit: 256 locals or constants, a jump of more than 32767 bytes, or a
        concatenation of 255 operands.
        That needs more than 255 parameters and instructions. */
    ghost predicate Full()
      reads this
    {
      var all := (|names| > 255 || |values| > 255 || |code| > 32764 || JoinsMany(m)) && base + |m| > 255;
      all
    }

    constructor (params: seq<string>, ghost m0: seq<Op>)
      ensures Valid() && m == m0 && base == |params| && code == [] && names == params && values == []
      ensures g.m == [] && g.links == map[]
    {
      m := m0;
      code, names, values, prevOp := [], params, [], ocNop;
      base := |params|;
      g := Gen([], params, [], ocNop, [], [0], {}, map[], {}, |params|);
      new;
      IntactOpen(m, g);
    }

    // --------------------------------------------------------------- emitting

    method Emit(oc: byte, b: seq<byte>, ghost op: Op, ghost how: How)
      requires Valid() && OpAt(m, |g.m|, op) && Admits(g, oc, b, op, how)
      modifies this
      ensures Valid() && Added(old(g), g, op, how)
      ensures Emits(old(code), old(prevOp), oc, b, code, prevOp)
      ensures !how.Plainly? ==> code == old(code) + [oc] + b
    {
      IntactOpen(m, g);
      var i := FindPair(prevOp, oc);
      if i < |combos| {
        var c := combos[i];
        OnlyPlainIsFused(g, oc, b, op, how, c);
        FusedAdded(g, oc, b, op, how, c);
        FusedEmits(code, prevOp, oc, b, c);
        g := Fused(g, c, b, op);
        code := FuseOnto(code, c, b);
        prevOp := ocNop;
        EmittedIntact(m, old(g), g, op, how);
        return;
      }
      AppendedEncoded(g, oc, b, op, how);
      AppendedEmits(code, prevOp, oc, b);
      g := Appended(g, oc, b, op, how);
      prevOp := oc;
      code := code + [oc] + b;
      EmittedIntact(m, old(g), g, op, how);
    }

    /** The place in the table of the pair, or its end. */
    method FindPair(prev: byte, oc: byte) returns (i: nat)
      ensures i <= |combos| && (i < |combos| ==> Pairs(combos[i], prev, oc))
      ensures i == |combos| ==> forall c :: !Pairs(c, prev, oc)
    {
      if !(ocNop < prev <= ocThis) {
        return |combos|;
      }
      i := 0;
      while i < |combos| && !(oc == combos[i].second && prev == combos[i].first)
        invariant 0 <= i <= |combos| && forall j | 0 <= j < i :: !Pairs(combos[j], prev, oc)
      {
        i := i + 1;
      }
    }

    /** An instruction that is not a jump. */
    method EmitOp(oc: byte, b: seq<byte>, ghost op: Op)
      requires Valid() && OpAt(m, |g.m|, op) && !IsJump(op) && Spells(names, values, oc, b, op)
      modifies this
      ensures Valid() && |g.m| == |old(g.m)| + 1 && Waits(old(g), g, {})
    {
      Emit(oc, b, op, Plainly);
      AddedWaits(old(g), g, op, Plainly);
    }

    method EmitJump(oc: byte, lab: int, ghost op: Op, ghost how: How) returns (r: Compiled, at: int)
      requires Valid() && OpAt(m, |g.m|, op) && IsJump(op) && JumpTo(oc, op.to) == Some(op)
      requires !how.Plainly? && Relative(g, op, how) == Aim(op, lab)
      requires how.Waiting? ==> -1 <= how.h < |g.m|
      requires how.Strayed? ==> op == Jump(Nowhere)
      requires how.Backwards? ==> 0 <= op.to <= |g.m| && op.to !in g.fused && (op.to == |g.m| ==> op.to in g.marks)
      modifies this
      ensures r.Fine? ==> Valid() && Added(old(g), g, op, how) && at == |old(code)|
      ensures r.Fine? ==> code == old(code) + [oc] + [Hi(lab), Lo(lab)]
      ensures r.Refused? <==> !IsInt16(lab)
      ensures r.Refused? ==> unchanged(this)
    {
      at := -1;
      if !IsInt16(lab) {
        return Refused("jump too far"), at;
      }
      SpellJump(names, values, oc, lab, op);
      Emit(oc, [Hi(lab), Lo(lab)], op, how);
      at := |code| - 3;
      r := Fine;
    }

    /** A jump forward, chained to those that wait for the same label. */
    method EmitChained(oc: byte, lab: int, ghost op: Op, ghost chain: seq<int>) returns (r: Compiled, at: int)
      requires Valid() && OpAt(m, |g.m|, op) && IsJump(op) && JumpTo(oc, op.to) == Some(op) && Pends(g, chain, lab, op.to)
      modifies this
      ensures r.Fine? ==> Valid() && |g.m| == |old(g.m)| + 1 && Waits(old(g), g, {|old(g.m)|})
      ensures r.Fine? ==> Pends(g, chain + [|old(g.m)|], at, op.to) && code == old(code) + [oc] + [Hi(lab), Lo(lab)]
      ensures r.Refused? ==> Full()
    {
      PendsRange(m, g, chain, lab, op.to);
      r, at := EmitJump(oc, lab, op, Waiting(Head(chain)));
      if r.Fine? { PendsMore(m, old(g), g, op, chain, lab); } else { FullIsLarge(m, g); }
    }

    /** A jump to a place already passed, at the address lab. */
    method EmitBwdJump(oc: byte, lab: int, ghost op: Op) returns (r: Compiled)
      requires Valid() && OpAt(m, |g.m|, op) && IsJump(op) && JumpTo(oc, op.to) == Some(op) && Lands(g, op.to, lab)
      modifies this
      ensures r.Fine? ==> Valid() && |g.m| == |old(g.m)| + 1 && Waits(old(g), g, {})
      ensures r.Fine? ==> code == old(code) + [oc] + [Hi(lab - |old(code)| - 3), Lo(lab - |old(code)| - 3)]
      ensures r.Refused? ==> Full()
    {
      LandsAdmits(m, g, oc, op, lab);
      var at: int;
      r, at := EmitJump(oc, lab - |code| - 3, op, Backwards);
      if r.Fine? { AddedWaits(old(g), g, op, Backwards); } else { FullIsLarge(m, g); }
    }

    /** Notes that the next instruction may be jumped to. */
    method Label() returns (at: int)
      requires Valid()
      modifies this
      ensures Valid() && |g.m| == |old(g.m)| && Waits(old(g), g, {}) && at == |code| && Marks(g, |g.m|, at)
    {
      IntactOpen(m, g);
      MarkedEncoded(g);
      g := Marked(g);
      prevOp := ocNop;
      at := |code|;
      IntactOpen(m, g);
      MarkedWaits(m, old(g));
    }

    /** Gives every jump on the chain the offset of the end of the code. */
    method PlaceLabel(lab: int, ghost chain: seq<int>) returns (r: Compiled)
      requires Valid() && Pends(g, chain, lab, |g.m|)
      modifies this
      ensures r.Fine? ==> Valid() && Places1(old(g), g, chain) && |g.m| == |old(g.m)|
      ensures r.Refused? ==> Full()
    {
      PlaceReady(m, g, chain, lab);
      prevOp := ocNop;
      ghost var g1;
      r, code, g1 := PatchChain(code, lab, g, chain);
      if r.Fine? {
        g := g1;
        PlaceDone(m, old(g), g, chain);
      } else {
        FullIsLarge(m, g);
      }
    }

    // ------------------------------------------------------ names and constants

    /** The slot of a local, a new one if it has none. */
    method Name(x: string) returns (r: Compiled, i: int)
      requires Valid() && x in NamesIn(m)
      modifies this
      ensures r.Fine? ==> Valid() && 0 <= i < |names| && names[i] == x && |g.m| == |old(g.m)| && Waits(old(g), g, {})
      ensures r.Refused? ==> Full()
    {
      i := |names| - 1;
      while i >= 0
        invariant -1 <= i < |names|
        invariant forall j :: i < j < |names| ==> names[j] != x
      {
        if names[i] == x {
          WaitsRefl(g);
          return Fine, i;
        }
        i := i - 1;
      }
      i := |names|;
      if i > 255 {
        FullIsLarge(m, g);
        return Refused("too many local variables (>255)"), i;
      }
      IntactOpen(m, g);
      ListedMore(names, base, NamesIn(m), x);
      NamedIntact(m, g, names + [x], values);
      names := names + [x];
      g := WithNames(g, names, values);
      r := Fine;
    }

    /** The index of a constant, a new one if it has none. */
    method ValueIndex(v: Value) returns (r: Compiled, i: int)
      requires Valid() && v in ValuesIn(m)
      modifies this
      ensures r.Fine? ==> Valid() && 0 <= i < |values| && values[i] == v && |g.m| == |old(g.m)| && Waits(old(g), g, {})
      ensures r.Refused? ==> Full()
    {
      i := 0;
      while i < |values|
        invariant 0 <= i <= |values| && v !in values[..i]
      {
        if values[i] == v {
          WaitsRefl(g);
          return Fine, i;
        }
        i := i + 1;
      }
      assert values[..i] == values;
      if i > 255 {
        FullIsLarge(m, g);
        return Refused("too many constants (>255)"), i;
      }
      IntactOpen(m, g);
      ListedMore(values, 0, ValuesIn(m), v);
      NamedIntact(m, g, names, values + [v]);
      values := values + [v];
      g := WithNames(g, names, values);
      r := Fine;
    }

    method EmitUint8(oc: byte, i: int, ghost op: Op) returns (r: Compiled)
      requires Valid() && OpAt(m, |g.m|, op) && !IsJump(op) && 0 <= i && (i < 255 ==> Spells(names, values, oc, [i], op))
      requires i >= 255 ==> i < |names| || i < |values| || (op == CatN(i) && i <= |g.m|)
      modifies this
      ensures r.Fine? ==> Valid() && |g.m| == |old(g.m)| + 1 && Waits(old(g), g, {})
      ensures r.Refused? ==> Full()
    {
      if i >= 255 {
        if i < |names| || i < |values| { FullIsLarge(m, g); }
        assert op.CatN? && op.n >= 255 ==> JoinsMany(m);
        return Refused("assert failed");
      }
      EmitOp(oc, [i], op);
      r := Fine;
    }

    method EmitValue(v: Value) returns (r: Compiled)
      requires Valid() && OpAt(m, |g.m|, Push(v))
      modifies this
      ensures r.Fine? ==> Valid() && |g.m| == |old(g.m)| + 1 && Waits(old(g), g, {})
      ensures r.Refused? ==> Full()
    {
      r := Fine;
      if v == Bool(true) {
        EmitOp(ocTrue, [], Push(v));
      } else if v == Bool(false) {
        EmitOp(ocFalse, [], Push(v));
      } else if v == Int(0) {
        EmitOp(ocZero, [], Push(v));
      } else if v == Int(1) {
        EmitOp(ocOne, [], Push(v));
      } else if v == Int(-1) {
        EmitOp(ocMinusOne, [], Push(v));
      } else if v == Str("") {
        EmitOp(ocEmptyStr, [], Push(v));
      } else if v.Int? && -32768 < v.n <= 32767 {
        Int16RoundTrip(v.n);
        EmitOp(ocInt, [Hi(v.n), Lo(v.n)], Push(v));
      } else {
        r := EmitConstant(v);
      }
    }

    method EmitConstant(v: Value) returns (r: Compiled)
      requires Valid() && OpAt(m, |g.m|, Push(v))
      modifies this
      ensures r.Fine? ==> Valid() && |g.m| == |old(g.m)| + 1 && Waits(old(g), g, {})
      ensures r.Refused? ==> Full()
    {
      var i;
      UsedIn(m, |g.m|, Push(v));
      r, i := ValueIndex(v);
      if r.Refused? { return; }
      ghost var b := g;
      r := EmitUint8(ocValue, i, Push(v));
      Waits0(old(g), b, g, {});
    }

    /** LoadStore has two operands: the slot, and the operation with whether to keep the old value. */
    method EmitLoadStore(i: int, ghost x: string, aop: ArithOp, orig: bool) returns (r: Compiled)
      requires Valid() && OpAt(m, |g.m|, LoadStore(x, aop, orig)) && 0 <= i < |names| && names[i] == x
      modifies this
      ensures r.Fine? ==> Valid() && |g.m| == |old(g.m)| + 1 && Waits(old(g), g, {})
      ensures r.Refused? ==> Full()
    {
      if i >= 255 {
        FullIsLarge(m, g);
        return Refused("assert failed");
      }
      var how: byte := UpdateCode(aop) * 2 + if orig then 1 else 0;
      EmitOp(ocLoadStore, [i, how], LoadStore(x, aop, orig));
      r := Fine;
    }

    // ------------------------------------------------------------ expressions

    method Expr(e: Expr) returns (r: Compiled)
      requires Valid() && HasE(m, |g.m|, e)
      modifies this
      ensures r.Fine? ==> Valid() && |g.m| == |old(g.m)| + SizeE(e) && Waits(old(g), g, {})
      ensures r.Refused? ==> Full()
      decreases e, 3
    {
      if Leaf(e) {
        LeafParts(m, |g.m|, e);
        r := LeafExpr(e);
      } else if e.Paren? {
        OneParts(m, |g.m|, e);
        r := Expr(e.e);
      } else if One(e) {
        r := OneExpr(e);
      } else if e.Recip? {
        r := RecipExpr(e);
      } else if Two(e) {
        r := TwoExpr(e);
      } else if e.In? && e.rest.Nil? {
        NoneParts(m, |g.m|, e);
        EmitOp(ocFalse, [], Push(Bool(false)));
        r := Fine;
      } else {
        r := LongExpr(e);
      }
    }

    method RecipExpr(e: Expr) returns (r: Compiled)
      requires Valid() && e.Recip? && HasE(m, |g.m|, e)
      modifies this
      ensures r.Fine? ==> Valid() && |g.m| == |old(g.m)| + SizeE(e) && Waits(old(g), g, {})
      ensures r.Refused? ==> Full()
      decreases e, 2
    {
      RecipParts(m, |g.m|, e);
      EmitOp(ocOne, [], Push(Int(1)));
      ghost var b := g;
      r := Operate(e.e, Div);
      Waits0(old(g), b, g, {});
    }

    method LeafExpr(e: Expr) returns (r: Compiled)
      requires Valid() && Leaf(e) && HasLeaf(m, |g.m|, e)
      modifies this
      ensures r.Fine? ==> Valid() && |g.m| == |old(g.m)| + SizeE(e) && Waits(old(g), g, {})
      ensures r.Refused? ==> Full()
    {
      if e.Const? {
        r := EmitValue(e.v);
        return;
      }
      UsedIn(m, |g.m| + (if e.IncDec? then 1 else 0), if e.IncDec? then CodeLeaf(e)[1] else CodeLeaf(e)[0]);
      var i;
      r, i := Name(e.name);
      if r.Refused? { return; }
      ghost var b := g;
      if e.Local? {
        r := EmitUint8(ocLoad, i, Load(e.name));
      } else {
        r := IncDecLocal(e, i);
      }
      Waits0(old(g), b, g, {});
    }

    method IncDecLocal(e: Expr, i: int) returns (r: Compiled)
      requires Valid() && e.IncDec? && HasLeaf(m, |g.m|, e) && 0 <= i < |names| && names[i] == e.name
      modifies this
      ensures r.Fine? ==> Valid() && |g.m| == |old(g.m)| + 2 && Waits(old(g), g, {})
      ensures r.Refused? ==> Full()
    {
      EmitOp(ocOne, [], Push(Int(1)));
      ghost var b := g;
      WaitsNames(old(g), b, {});
      r := EmitLoadStore(i, e.name, if e.dec then Sub else Add, e.post);
      Waits0(old(g), b, g, {});
    }

    /** A unary operator, or an assignment. */
    method OneExpr(e: Expr) returns (r: Compiled)
      requires Valid() && One(e) && HasE(m, |g.m|, e)
      modifies this
      ensures r.Fine? ==> Valid() && |g.m| == |old(g.m)| + SizeE(e) && Waits(old(g), g, {})
      ensures r.Refused? ==> Full()
      decreases e, 2
    {
      OneParts(m, |g.m|, e);
      if e.Unary? {
        r := Expr(e.e);
        if r.Refused? { return; }
        ghost var b := g;
        EmitOp(UnaryCode(e.op), [], Unary1(e.op));
        Waits0(old(g), b, g, {});
      } else {
        UsedIn(m, |g.m| + SizeE(e.e), Op1(e));
        var i;
        r, i := Name(e.name);
        if r.Refused? { return; }
        ghost var b := g;
        r := AssignExpr(e, i);
        Waits0(old(g), b, g, {});
      }
    }

    /** An assignment to the local in slot i. */
    method AssignExpr(e: Expr, i: int) returns (r: Compiled)
      requires Valid() && (e.Assign? || e.AssignOp?) && 0 <= i < |names| && names[i] == e.name
      requires HasE(m, |g.m|, e.e) && OpAt(m, |g.m| + SizeE(e.e), Op1(e))
      modifies this
      ensures r.Fine? ==> Valid() && |g.m| == |old(g.m)| + SizeE(e) && Waits(old(g), g, {})
      ensures r.Refused? ==> Full()
      decreases e, 1
    {
      r := Expr(e.e);
      if r.Refused? { return; }
      ghost var b := g;
      WaitsNames(old(g), b, {});
      if e.Assign? {
        r := EmitUint8(ocStore, i, Store(e.name));
      } else {
        r := EmitLoadStore(i, e.name, e.aop, false);
      }
      Waits0(old(g), b, g, {});
    }

    method TwoExpr(e: Expr) returns (r: Compiled)
      requires Valid() && Two(e) && HasE(m, |g.m|, e)
      modifies this
      ensures r.Fine? ==> Valid() && |g.m| == |old(g.m)| + SizeE(e) && Waits(old(g), g, {})
      ensures r.Refused? ==> Full()
      decreases e, 2
    {
      TwoParts(m, |g.m|, e);
      r := Expr(e.l);
      if r.Refused? { return; }
      ghost var b := g;
      r := SecondExpr(e);
      Waits0(old(g), b, g, {});
    }

    method SecondExpr(e: Expr) returns (r: Compiled)
      requires Valid() && Two(e) && HasE(m, |g.m|, e.r) && OpAt(m, |g.m| + SizeE(e.r), Op2(e))
      modifies this
      ensures r.Fine? ==> Valid() && |g.m| == |old(g.m)| + SizeE(e.r) + 1 && Waits(old(g), g, {})
      ensures r.Refused? ==> Full()
      decreases e, 1
    {
      r := Expr(e.r);
      if r.Refused? { return; }
      ghost var c := g;
      Spell2(names, values, e);
      EmitOp(Code2(e), [], Op2(e));
      Waits0(old(g), c, g, {});
    }

    /** An operand and an operation on it and the one below. */
    method Operate(x: Expr, op: ArithOp) returns (r: Compiled)
      requires Valid() && HasE(m, |g.m|, x) && OpAt(m, |g.m| + SizeE(x), Arith(op))
      modifies this
      ensures r.Fine? ==> Valid() && |g.m| == |old(g.m)| + SizeE(x) + 1 && Waits(old(g), g, {})
      ensures r.Refused? ==> Full()
      decreases x, 4
    {
      r := Expr(x);
      if r.Refused? { return; }
      ghost var b := g;
      SpellArith(names, values, op);
      EmitOp(ArithCode(op), [], Arith(op));
      Waits0(old(g), b, g, {});
      r := Fine;
    }

    method LongExpr(e: Expr) returns (r: Compiled)
      requires Valid() && Long(e) && !(e.In? && e.rest.Nil?) && HasE(m, |g.m|, e)
      modifies this
      ensures r.Fine? ==> Valid() && |g.m| == |old(g.m)| + SizeE(e) && Waits(old(g), g, {})
      ensures r.Refused? ==> Full()
      decreases e, 2
    {
      ghost var i, j := |g.m|, |g.m| + SizeE(Operand(e));
      LongParts(m, i, e, j);
      r := Expr(Operand(e));
      if r.Refused? { return; }
      ghost var b := g;
      r := RestExpr(e, i, j, i + SizeE(e));
      Waits0(old(g), b, g, {});
    }

    /** The part of a long expression after its first operand. */
    method RestExpr(e: Expr, ghost i: int, ghost j: int, ghost end: int) returns (r: Compiled)
      requires Valid() && Long(e) && !(e.In? && e.rest.Nil?)
      requires i >= 0 && j == |g.m| == i + SizeE(Operand(e)) && HasRest(m, i, j, e) && end == i + SizeE(e)
      modifies this
      ensures r.Fine? ==> Valid() && |g.m| == end && Waits(old(g), g, {})
      ensures r.Refused? ==> Full()
      decreases e, 1
    {
      LongSize(e);
      DueRest(m, i, j, e, end);
      if e.Nary? && Joins(e.aop, e.rest) {
        SizePositive(e.e);
        r := JoinExpr(e.rest);
      } else if e.Nary? {
        r := NaryExpr(e);
      } else if e.Product? {
        r := MulDivExpr(e);
      } else if e.AndOr? {
        r := AndOrExpr(e, end);
      } else if e.In? {
        r := InExpr(e, end);
      } else {
        r := Trinary(e);
      }
    }

    /** The operands of a concatenation after the first, and the concatenation. */
    method JoinExpr(list: Exprs) returns (r: Compiled)
      requires Valid() && HasJoin(m, |g.m|, list, 1) && |g.m| >= 1
      modifies this
      ensures r.Fine? ==> Valid() && |g.m| == |old(g.m)| + SizeJoin(list) && Waits(old(g), g, {})
      ensures r.Refused? ==> Full()
      decreases list, 0
    {
      var rest, n: nat := list, 1;
      WaitsRefl(g);
      while rest.Cons?
        invariant Valid() && Waits(old(g), g, {}) && HasJoin(m, |g.m|, rest, n) && |g.m| >= n
        invariant |g.m| + SizeJoin(rest) == |old(g.m)| + SizeJoin(list) && (rest == list || rest < list)
        decreases rest
      {
        ghost var b := g;
        r := NextOperand(rest, n);
        if r.Refused? { return; }
        Waits0(old(g), b, g, {});
        rest, n := rest.tail, n + 1;
      }
      ghost var b := g;
      JoinParts(m, |g.m|, rest, n);
      r := EmitUint8(ocCatN, n, CatN(n));
      Waits0(old(g), b, g, {});
    }

    method NextOperand(rest: Exprs, ghost n: nat) returns (r: Compiled)
      requires Valid() && rest.Cons? && HasJoin(m, |g.m|, rest, n)
      modifies this
      ensures r.Fine? ==> Valid() && HasJoin(m, |g.m|, rest.tail, n + 1) && Waits(old(g), g, {})
      ensures r.Fine? ==> |g.m| == |old(g.m)| + SizeE(rest.head) && |g.m| > |old(g.m)|
      ensures r.Refused? ==> Full()
      decreases rest.head, 5
    {
      JoinParts(m, |g.m|, rest, n);
      SizePositive(rest.head);
      r := Expr(rest.head);
    }

    method NaryExpr(e: Expr) returns (r: Compiled)
      requires Valid() && e.Nary? && HasNary(m, |g.m|, e.aop, e.rest)
      modifies this
      ensures r.Fine? ==> Valid() && |g.m| == |old(g.m)| + SizeNary(e.aop, e.rest) && Waits(old(g), g, {})
      ensures r.Refused? ==> Full()
      decreases e, 0
    {
      var rest := e.rest;
      WaitsRefl(g);
      while rest.Cons?
        invariant Valid() && rest < e && Waits(old(g), g, {}) && HasNary(m, |g.m|, e.aop, rest)
        invariant |g.m| + SizeNary(e.aop, rest) == |old(g.m)| + SizeNary(e.aop, e.rest)
        decreases rest
      {
        ghost var b := g;
        r := Term(e.aop, rest);
        if r.Refused? { return; }
        Waits0(old(g), b, g, {});
        rest := rest.tail;
      }
      r := Fine;
    }

    /** The next operand and its operator. */
    method Term(op: ArithOp, rest: Exprs) returns (r: Compiled)
      requires Valid() && rest.Cons? && HasNary(m, |g.m|, op, rest)
      modifies this
      ensures r.Fine? ==> Valid() && HasNary(m, |g.m|, op, rest.tail) && Waits(old(g), g, {})
      ensures r.Fine? ==> |g.m| + SizeNary(op, rest.tail) == |old(g.m)| + SizeNary(op, rest)
      ensures r.Refused? ==> Full()
      decreases rest, 0
    {
      NaryParts(m, |g.m|, op, rest);
      var sub := Subtracts(op, rest.head);
      if sub {
        r := Operate(rest.head.e, Sub);
      } else {
        r := Operate(rest.head, op);
      }
    }

    /** Factors first, then the divisors. */
    method MulDivExpr(e: Expr) returns (r: Compiled)
      requires Valid() && e.Product? && HasFactors(m, |g.m|, e.rest) && HasDivisors(m, |g.m| + SizeFactors(e.rest), e.rest, false)
      modifies this
      ensures r.Fine? ==> Valid() && |g.m| == |old(g.m)| + SizeProduct(e.rest) && Waits(old(g), g, {})
      ensures r.Refused? ==> Full()
      decreases e, 0
    {
      r := Factors(e.rest);
      if r.Refused? { return; }
      ghost var b := g;
      r := Divisors(e.rest);
      Waits0(old(g), b, g, {});
    }

    method Factors(list: Exprs) returns (r: Compiled)
      requires Valid() && HasFactors(m, |g.m|, list)
      modifies this
      ensures r.Fine? ==> Valid() && |g.m| == |old(g.m)| + SizeFactors(list) && Waits(old(g), g, {})
      ensures r.Refused? ==> Full()
      decreases list, 0
    {
      var rest := list;
      WaitsRefl(g);
      while rest.Cons?
        invariant Valid() && (rest < list || rest == list) && Waits(old(g), g, {}) && HasFactors(m, |g.m|, rest)
        invariant |g.m| + SizeFactors(rest) == |old(g.m)| + SizeFactors(list)
        decreases rest
      {
        ghost var b := g;
        r := NextFactor(rest);
        if r.Refused? { return; }
        Waits0(old(g), b, g, {});
        rest := rest.tail;
      }
      r := Fine;
    }

    method NextFactor(rest: Exprs) returns (r: Compiled)
      requires Valid() && rest.Cons? && HasFactors(m, |g.m|, rest)
      modifies this
      ensures r.Fine? ==> Valid() && HasFactors(m, |g.m|, rest.tail) && Waits(old(g), g, {})
      ensures r.Fine? ==> |g.m| + SizeFactors(rest.tail) == |old(g.m)| + SizeFactors(rest)
      ensures r.Refused? ==> Full()
      decreases rest.head, 5
    {
      FactorsParts(m, |g.m|, rest);
      WaitsRefl(g);
      r := Fine;
      if !rest.head.Recip? {
        r := Operate(rest.head, Mul);
      }
    }

    method Divisors(list: Exprs) returns (r: Compiled)
      requires Valid() && HasDivisors(m, |g.m|, list, false)
      modifies this
      ensures r.Fine? ==> Valid() && |g.m| == |old(g.m)| + SizeDivisors(list, false) && Waits(old(g), g, {})
      ensures r.Refused? ==> Full()
      decreases list, 0
    {
      var rest, begun := list, false;
      WaitsRefl(g);
      while rest.Cons?
        invariant Valid() && (rest < list || rest == list) && Waits(old(g), g, {}) && HasDivisors(m, |g.m|, rest, begun)
        invariant |g.m| + SizeDivisors(rest, begun) == |old(g.m)| + SizeDivisors(list, false)
        decreases rest
      {
        ghost var b := g;
        r := NextDivisor(rest, begun);
        if r.Refused? { return; }
        Waits0(old(g), b, g, {});
        begun := begun || rest.head.Recip?;
        rest := rest.tail;
      }
      ghost var b := g;
      DivisorsParts(m, |g.m|, rest, begun);
      if begun { EmitOp(ocDiv, [], Arith(Div)); }
      WaitsRefl(b);
      Waits0(old(g), b, g, {});
      r := Fine;
    }

    method NextDivisor(rest: Exprs, begun: bool) returns (r: Compiled)
      requires Valid() && rest.Cons? && HasDivisors(m, |g.m|, rest, begun)
      modifies this
      ensures r.Fine? ==> Valid() && HasDivisors(m, |g.m|, rest.tail, begun || rest.head.Recip?) && Waits(old(g), g, {})
      ensures r.Fine? ==> |g.m| + SizeDivisors(rest.tail, begun || rest.head.Recip?) == |old(g.m)| + SizeDivisors(rest, begun)
      ensures r.Refused? ==> Full()
      decreases rest.head, 5
    {
      DivisorsParts(m, |g.m|, rest, begun);
      WaitsRefl(g);
      r := Fine;
      if rest.head.Recip? && begun {
        r := Operate(rest.head.e, Mul);
      } else if rest.head.Recip? {
        r := Expr(rest.head.e);
      }
    }

    method AndOrExpr(e: Expr, ghost end: int) returns (r: Compiled)
      requires Valid() && e.AndOr? && DueAndOr(m, |g.m|, e.and, e.e, e.rest, end)
      modifies this
      ensures r.Fine? ==> Valid() && |g.m| == end && Waits(old(g), g, {})
      ensures r.Refused? ==> Full()
      decreases e, 0
    {
      var lab, prev, rest := -1, e.e, e.rest;
      ghost var chain := [];
      WaitsRefl(g);
      NonePend(g, end);
      while rest.Cons?
        invariant Valid() && rest < e && Waits(old(g), g, Elems(chain)) && Pends(g, chain, lab, end)
        invariant DueAndOr(m, |g.m|, e.and, prev, rest, end)
        decreases rest
      {
        r, lab, chain := NextAndOr(e.and, prev, rest, lab, end, chain, old(g));
        if r.Refused? { return; }
        prev, rest := rest.head, rest.tail;
      }
      ghost var b := g;
      AndOrLastDue(m, |g.m|, e.and, prev, end);
      CheckBool(prev, end);
      r := PlaceEnd(lab, chain, old(g), b);
    }

    method NextAndOr(and: bool, ghost prev: Expr, rest: Exprs, lab: int, ghost end: int, ghost chain: seq<int>, ghost a: Gen)
      returns (r: Compiled, lab1: int, ghost chain1: seq<int>)
      requires Valid() && rest.Cons? && DueAndOr(m, |g.m|, and, prev, rest, end) && Waits(a, g, Elems(chain)) && Pends(g, chain, lab, end)
      modifies this
      ensures r.Fine? ==> Valid() && DueAndOr(m, |g.m|, and, rest.head, rest.tail, end) && Waits(a, g, Elems(chain1)) && Pends(g, chain1, lab1, end)
      ensures r.Refused? ==> Full()
      decreases rest.head, 5
    {
      ghost var k := |g.m|;
      AndOrNextDue(m, k, and, prev, rest, end);
      chain1 := chain + [k];
      r, lab1 := AndOrNext(and, rest.head, lab, end, chain);
      WaitsMore(a, old(g), g, chain, k);
    }

    /** The check that the last operand is a boolean. */
    method CheckBool(last: Expr, ghost end: int)
      requires Valid() && (Checks(last) ==> OpAt(m, |g.m|, Bool1)) && end == |g.m| + (if Checks(last) then 1 else 0)
      modifies this
      ensures Valid() && |g.m| == end && Waits(old(g), g, {})
    {
      WaitsRefl(g);
      if Checks(last) { EmitOp(ocBool, [], Bool1); }
    }

    /** Jump out if the value so far decides, else the next operand. */
    method AndOrNext(and: bool, x: Expr, lab: int, ghost end: int, ghost chain: seq<int>) returns (r: Compiled, lab1: int)
      requires Valid() && Pends(g, chain, lab, end) && OpAt(m, |g.m|, if and then And(end) else Or(end)) && HasE(m, |g.m| + 1, x)
      modifies this
      ensures r.Fine? ==> Valid() && |g.m| == |old(g.m)| + 1 + SizeE(x) && Waits(old(g), g, {|old(g.m)|})
      ensures r.Fine? ==> Pends(g, chain + [|old(g.m)|], lab1, end)
      ensures r.Refused? ==> Full()
      decreases x, 4
    {
      r, lab1 := EmitChained(if and then ocAnd else ocOr, lab, if and then And(end) else Or(end), chain);
      if r.Refused? { return; }
      ghost var b := g;
      r := Expr(x);
      if r.Fine? {
        PendsOn(m, b, g, {}, chain + [|old(g.m)|], lab1, end);
        Waits0(old(g), b, g, {|old(g.m)|});
      }
    }

    /** Places the last label of code begun at a, once code without labels was added to b. */
    method PlaceEnd(lab: int, ghost chain: seq<int>, ghost a: Gen, ghost b: Gen) returns (r: Compiled)
      requires Valid() && Intact(m, a) && Intact(m, b) && Waits(a, b, Elems(chain)) && Waits(b, g, {}) && Pends(b, chain, lab, |g.m|)
      modifies this
      ensures r.Fine? ==> Valid() && |g.m| == |old(g.m)| && Waits(a, g, {})
      ensures r.Refused? ==> Full()
    {
      PendsOn(m, b, g, {}, chain, lab, |g.m|);
      Waits0(a, b, g, Elems(chain));
      r := PlaceLabel(lab, chain);
      if r.Fine? {
        WaitsPlaced(m, a, old(g), g, Elems(chain), chain);
        assert Elems(chain) - Elems(chain) == {};
      }
    }

    method InExpr(e: Expr, ghost end: int) returns (r: Compiled)
      requires Valid() && e.In? && e.rest.Cons? && DueIn(m, |g.m|, e.rest, end)
      modifies this
      ensures r.Fine? ==> Valid() && |g.m| == end && Waits(old(g), g, {})
      ensures r.Refused? ==> Full()
      decreases e, 0
    {
      var lab, rest := -1, e.rest;
      ghost var chain := [];
      WaitsRefl(g);
      NonePend(g, end);
      while rest.tail.Cons?
        invariant Valid() && rest.Cons? && rest < e && Waits(old(g), g, Elems(chain)) && Pends(g, chain, lab, end)
        invariant DueIn(m, |g.m|, rest, end)
        decreases rest
      {
        r, lab, chain := NextMember(rest, lab, end, chain, old(g));
        if r.Refused? { return; }
        rest := rest.tail;
      }
      InNextDue(m, |g.m|, rest, end);
      r := InEnd(rest.head, lab, end, chain, old(g));
    }

    /** The last value, and the label of the jumps out. */
    method InEnd(x: Expr, lab: int, ghost end: int, ghost chain: seq<int>, ghost a: Gen) returns (r: Compiled)
      requires Valid() && HasE(m, |g.m|, x) && OpAt(m, |g.m| + SizeE(x), Compare2(Is)) && end == |g.m| + SizeE(x) + 1
      requires Intact(m, a) && Waits(a, g, Elems(chain)) && Pends(g, chain, lab, end)
      modifies this
      ensures r.Fine? ==> Valid() && |g.m| == end && Waits(a, g, {})
      ensures r.Refused? ==> Full()
      decreases x, 5
    {
      ghost var b := g;
      r := InLast(x);
      if r.Refused? { return; }
      r := PlaceEnd(lab, chain, a, b);
    }

    method NextMember(rest: Exprs, lab: int, ghost end: int, ghost chain: seq<int>, ghost a: Gen) returns (r: Compiled, lab1: int, ghost chain1: seq<int>)
      requires Valid() && rest.Cons? && rest.tail.Cons? && DueIn(m, |g.m|, rest, end) && Waits(a, g, Elems(chain)) && Pends(g, chain, lab, end)
      modifies this
      ensures r.Fine? ==> Valid() && DueIn(m, |g.m|, rest.tail, end) && Waits(a, g, Elems(chain1)) && Pends(g, chain1, lab1, end)
      ensures r.Refused? ==> Full()
      decreases rest.head, 5
    {
      ghost var k := |g.m| + SizeE(rest.head);
      InNextDue(m, |g.m|, rest, end);
      chain1 := chain + [k];
      r, lab1 := InNext(rest.head, lab, end, chain);
      WaitsMore(a, old(g), g, chain, k);
    }

    /** A value to compare with, and a jump out if it is equal. */
    method InNext(x: Expr, lab: int, ghost end: int, ghost chain: seq<int>) returns (r: Compiled, lab1: int)
      requires Valid() && Pends(g, chain, lab, end) && HasE(m, |g.m|, x) && OpAt(m, |g.m| + SizeE(x), InJump(end))
      modifies this
      ensures r.Fine? ==> Valid() && |g.m| == |old(g.m)| + SizeE(x) + 1 && Waits(old(g), g, {|old(g.m)| + SizeE(x)})
      ensures r.Fine? ==> Pends(g, chain + [|old(g.m)| + SizeE(x)], lab1, end)
      ensures r.Refused? ==> Full()
      decreases x, 4
    {
      lab1 := lab;
      r := Expr(x);
      if r.Refused? { return; }
      ghost var b := g;
      PendsOn(m, old(g), b, {}, chain, lab, end);
      r, lab1 := EmitChained(ocIn, lab, InJump(end), chain);
      Waits0(old(g), b, g, {|b.m|});
    }

    method InLast(x: Expr) returns (r: Compiled)
      requires Valid() && HasE(m, |g.m|, x) && OpAt(m, |g.m| + SizeE(x), Compare2(Is))
      modifies this
      ensures r.Fine? ==> Valid() && |g.m| == |old(g.m)| + SizeE(x) + 1 && Waits(old(g), g, {})
      ensures r.Refused? ==> Full()
      decreases x, 4
    {
      r := Expr(x);
      if r.Refused? { return; }
      ghost var b := g;
      EmitOp(ocIs, [], Compare2(Is));
      Waits0(old(g), b, g, {});
      r := Fine;
    }

    /** The arms of ?: after its condition. */
    method Trinary(e: Expr) returns (r: Compiled)
      requires Valid() && e.Cond? && HasArms(m, |g.m|, e)
      modifies this
      ensures r.Fine? ==> Valid() && |g.m| == |old(g.m)| + 2 + SizeE(e.l) + SizeE(e.r) && Waits(old(g), g, {})
      ensures r.Refused? ==> Full()
      decreases e, 0
    {
      ghost var q := |g.m| + 2 + SizeE(e.l);
      ghost var k := q + SizeE(e.r);
      ArmsParts(m, |g.m|, e, q, k);
      var end;
      r, end := FirstArm(e.l, q, k);
      if r.Refused? { return; }
      r := LastArm(e.r, end, q - 1, old(g), q, k);
    }

    /** The jump to the second arm, the first arm, and the jump over the second. */
    method FirstArm(x: Expr, ghost q: int, ghost end: int) returns (r: Compiled, lab: int)
      requires Valid() && q == |g.m| + 2 + SizeE(x) && OpAt(m, |g.m|, QMark(q)) && HasE(m, |g.m| + 1, x) && OpAt(m, q - 1, Jump(end))
      modifies this
      ensures r.Fine? ==> Valid() && |g.m| == q && Waits(old(g), g, {q - 1}) && Pends(g, [q - 1], lab, end)
      ensures r.Refused? ==> Full()
      decreases x, 5
    {
      ghost var i := |g.m|;
      var f;
      r, f := GuardedExpr(ocQMark, QMark(q), x);
      if r.Refused? { return r, -1; }
      r, lab := ElseJump(f, i, q - 1, end, old(g), {i});
      assert {i} + {q - 1} - {i} == {q - 1};
    }

    /** A jump over an expression, and the expression. */
    method GuardedExpr(oc: byte, ghost op: Op, x: Expr) returns (r: Compiled, lab: int)
      requires Valid() && IsJump(op) && JumpTo(oc, op.to) == Some(op) && OpAt(m, |g.m|, op) && HasE(m, |g.m| + 1, x)
      modifies this
      ensures r.Fine? ==> Valid() && |g.m| == |old(g.m)| + 1 + SizeE(x) && Waits(old(g), g, {|old(g.m)|})
      ensures r.Fine? ==> Pends(g, [|old(g.m)|], lab, op.to)
      ensures r.Refused? ==> Full()
      decreases x, 4
    {
      r, lab := ForwardJump(oc, op);
      if r.Refused? { return; }
      ghost var b := g;
      r := Expr(x);
      PendsOn(m, b, g, {}, [|old(g.m)|], lab, op.to);
      Waits0(old(g), b, g, {|old(g.m)|});
    }

    /** A jump forward that waits alone. */
    method ForwardJump(oc: byte, ghost op: Op) returns (r: Compiled, lab: int)
      requires Valid() && IsJump(op) && JumpTo(oc, op.to) == Some(op) && OpAt(m, |g.m|, op)
      modifies this
      ensures r.Fine? ==> Valid() && |g.m| == |old(g.m)| + 1 && Waits(old(g), g, {|old(g.m)|}) && Pends(g, [|old(g.m)|], lab, op.to)
      ensures r.Refused? ==> Full()
    {
      NonePend(g, op.to);
      r, lab := EmitChained(oc, -1, op, []);
      assert [] + [|old(g.m)|] == [|old(g.m)|];
    }

    /** A jump to the end, and the label of the jump k that skipped what stands before it. */
    method ElseJump(lab: int, ghost k: int, ghost n: int, ghost end: int, ghost a: Gen, ghost x: set<int>) returns (r: Compiled, lab1: int)
      requires Valid() && Intact(m, a) && Waits(a, g, x) && k in x && n == |g.m| && Pends(g, [k], lab, n + 1) && OpAt(m, n, Jump(end))
      modifies this
      ensures r.Fine? ==> Valid() && |g.m| == n + 1 && Pends(g, [n], lab1, end)
      ensures r.Fine? ==> Waits(a, g, x + {n} - {k}) && Passes(old(g), g, {k})
      ensures r.Refused? ==> Full()
    {
      PendsRange(m, g, [k], lab, n + 1);
      assert k in [k];
      r, lab1 := ForwardJump(ocJump, Jump(end));
      if r.Refused? { return; }
      ghost var b := g;
      PendsOn(m, old(g), b, {n}, [k], lab, n + 1);
      WaitsTrans(a, old(g), b, x, {n});
      r := PlaceOne(lab, k, a, x + {n});
      if r.Refused? { return; }
      ElemsMore([], k);
      ElemsMore([], n);
      PlacesPasses(b, g, [k]);
      PendsPass(m, b, g, {k}, [n], lab1, end);
      WaitsPasses(old(g), b, {n});
      PassTrans(old(g), b, g, {}, {k});
      assert {} + {k} == {k};
    }

    /** Places the label of a jump that waits alone. */
    method PlaceOne(lab: int, ghost k: int, ghost a: Gen, ghost x: set<int>) returns (r: Compiled)
      requires Valid() && Intact(m, a) && Waits(a, g, x) && k in x && Pends(g, [k], lab, |g.m|)
      modifies this
      ensures r.Fine? ==> Valid() && |g.m| == |old(g.m)| && Places1(old(g), g, [k]) && Waits(a, g, x - {k})
      ensures r.Refused? ==> Full()
    {
      r := PlaceLabel(lab, [k]);
      if r.Fine? {
        ElemsMore([], k);
        WaitsPlaced(m, a, old(g), g, x, [k]);
      }
    }

    /** The last arm, and the label of the jump k over it. */
    method LastArm(x: Expr, lab: int, ghost k: int, ghost a: Gen, ghost i: int, ghost end: int) returns (r: Compiled)
      requires Valid() && Intact(m, a) && Waits(a, g, {k}) && i == |g.m| && end == i + SizeE(x) && Pends(g, [k], lab, end) && HasE(m, i, x)
      modifies this
      ensures r.Fine? ==> Valid() && |g.m| == end && Waits(a, g, {})
      ensures r.Refused? ==> Full()
      decreases x, 4
    {
      r := Expr(x);
      if r.Refused? { return; }
      ghost var b := g;
      PendsOn(m, old(g), b, {}, [k], lab, end);
      Waits0(a, old(g), b, {k});
      r := PlaceOne(lab, k, a, {k});
      assert {k} - {k} == {};
    }

    // ------------------------------------------------------------- statements

    /** A statement that neither has a body nor uses the labels. */
    method SimpleStmt(s: Stmt) returns (r: Compiled)
      requires Valid() && (s.ExprStmt? || s.Return? || s.ReturnNil?) && HasS(m, |g.m|, s, NoLoop)
      modifies this
      ensures r.Fine? ==> Valid() && |g.m| == |old(g.m)| + SizeS(s) && Waits(old(g), g, {})
      ensures r.Refused? ==> Full()
    {
      r := Fine;
      JumpParts(m, |g.m|, s, NoLoop);
      if s.ReturnNil? {
        EmitOp(ocReturnNil, [], RetNil);
      } else if s.ExprStmt? && s.e.Const? {
        WaitsRefl(g);
      } else {
        ValueParts(m, |g.m|, s, NoLoop);
        :- Expr(s.e);
        ghost var b := g;
        if s.Return? { EmitOp(ocReturn, [], Ret); } else { EmitOp(ocPop, [], Pop); }
        Waits0(old(g), b, g, {});
      }
    }

    method BreakStmt(labs: Labs, ghost l: Labels, ghost bc: seq<int>)
      returns (r: Compiled, labs1: Labs, ghost bc1: seq<int>, ghost x: set<int>)
      requires Valid() && HasS(m, |g.m|, Break, l) && Held(g, l, labs, bc) && l.Loop?
      modifies this
      ensures r.Fine? ==> Valid() && |g.m| == |old(g.m)| + 1 && Stated(old(g), g, l, bc, l, labs1, bc1, x)
      ensures r.Refused? ==> Full()
    {
      ghost var k := |g.m|;
      JumpParts(m, k, Break, l);
      OwnedBelow(m, g, l, labs, bc);
      labs1, bc1, x := labs, bc + [k], {k};
      var brk;
      r, brk := EmitChained(ocJump, labs.brk, Jump(l.brk), bc);
      if r.Refused? { return; }
      labs1 := labs.(brk := brk);
      ElemsMore(bc, k);
      HeldOn(m, old(g), g, x, l, labs, bc);
      assert k !in Elems(ContChain(l.cont));
      assert Owned(l, bc1) == Owned(l, bc) + x;
    }

    /** The code is that of the source's two branches, whether or not the jump then goes where it should. */
    method ContinueStmt(labs: Labs, ghost l: Labels, ghost bc: seq<int>)
      returns (r: Compiled, labs1: Labs, ghost x: set<int>)
      requires Valid() && HasS(m, |g.m|, Continue, l) && Held(g, l, labs, bc) && l.Loop?
      modifies this
      ensures r.Fine? ==> Valid() && |g.m| == |old(g.m)| + 1 && Stated(old(g), g, l, bc, Seen(l, Some(|old(g.m)|)), labs1, bc, x)
      ensures r.Fine? ==> code == ContinueCode(old(code), labs.cont)
      ensures r.Refused? ==> Full()
    {
      labs1, x := labs, {};
      JumpParts(m, |g.m|, Continue, l);
      ContinueBranches(m, g, l, labs, bc);
      if labs.cont != -1 && labs.cont < |code| {
        r := EmitBwdJump(ocJump, labs.cont, Jump(ContTarget(l, |g.m|)));
        if r.Fine? { StatedPlain(m, old(g), g, l, labs, bc); }
      } else {
        var cont;
        r, cont, x := ChainContinue(labs.cont, l, labs, bc);
        labs1 := labs.(cont := cont);
      }
    }

    /** A continue chained to the label; if that is where it stands itself, to itself. */
    method ChainContinue(lab: int, ghost l: Labels, ghost labs: Labs, ghost bc: seq<int>) returns (r: Compiled, cont: int, ghost x: set<int>)
      requires Valid() && Held(g, l, labs, bc) && l.Loop? && labs.cont == lab && OpAt(m, |g.m|, Jump(ContTarget(l, |g.m|)))
      requires l.cont == Back(|g.m|) || (l.cont.Fwd? && l.cont.first.None?)
      modifies this
      ensures r.Fine? ==> Valid() && |g.m| == |old(g.m)| + 1
      ensures r.Fine? ==> Stated(old(g), g, l, bc, Seen(l, Some(|old(g.m)|)), labs.(cont := cont), bc, x)
      ensures r.Fine? ==> code == old(code) + [ocJump] + [Hi(lab), Lo(lab)]
      ensures r.Refused? ==> Full()
    {
      ghost var k, how := |g.m|, if l.cont.Back? then Strayed else Waiting(-1);
      ghost var op := Jump(ContTarget(l, k));
      if l.cont.Back? { MarksEnd(m, g, lab); } else { PendsRange(m, g, [], lab, l.cont.to); }
      OwnedBelow(m, g, l, labs, bc);
      r, cont := EmitJump(ocJump, lab, op, how);
      x := {};
      if r.Fine? && l.cont.Back? {
        AddedWaits(old(g), g, op, how);
        StatedPlain(m, old(g), g, l, labs, bc);
      } else if r.Fine? {
        PendsMore(m, old(g), g, op, [], lab);
        x := {k};
        ContinueChained(m, old(g), g, l, labs, bc, cont);
      } else {
        FullIsLarge(m, g);
      }
    }

    method Statement(s: Stmt, labs: Labs, ghost l: Labels, ghost bc: seq<int>)
      returns (r: Compiled, labs1: Labs, ghost bc1: seq<int>, ghost x: set<int>)
      requires Valid() && HasS(m, |g.m|, s, l) && Held(g, l, labs, bc)
      modifies this
      ensures r.Fine? ==> Valid() && Placed(s, l.Loop?)
      ensures r.Fine? ==> |g.m| == |old(g.m)| + SizeS(s) && Stated(old(g), g, l, bc, Seen(l, FirstS(s, |old(g.m)|)), labs1, bc1, x)
      ensures r.Refused? ==> Full() || !Placed(s, l.Loop?)
      decreases s, 4
    {
      if s.Block? {
        BlockParts(m, |g.m|, s, l);
        BlockSizes(s, |g.m|);
        r, labs1, bc1, x := Statements(s.body, labs, l, bc);
      } else if s.If? {
        r, labs1, bc1, x := IfStmt(s, labs, l, bc);
      } else if s.IfElse? {
        r, labs1, bc1, x := IfElseStmt(s, labs, l, bc);
      } else if s.Switch? {
        r, labs1, bc1, x := SwitchStmt(s, labs, l, bc);
      } else if IsLoop(s) {
        labs1, bc1, x := labs, bc, {};
        LoopSizes(s, |g.m|, l);
        r := LoopStmt(s, l);
        if r.Fine? { StatedPlain(m, old(g), g, l, labs, bc); }
      } else {
        r, labs1, bc1, x := JumpStmt(s, labs, l, bc);
      }
    }

    /** break, continue and return, and expressions. */
    method JumpStmt(s: Stmt, labs: Labs, ghost l: Labels, ghost bc: seq<int>)
      returns (r: Compiled, labs1: Labs, ghost bc1: seq<int>, ghost x: set<int>)
      requires s.ExprStmt? || s.Return? || s.ReturnNil? || s.Break? || s.Continue?
      requires Valid() && HasS(m, |g.m|, s, l) && Held(g, l, labs, bc)
      modifies this
      ensures r.Fine? ==> Valid() && Placed(s, l.Loop?)
      ensures r.Fine? ==> |g.m| == |old(g.m)| + SizeS(s) && Stated(old(g), g, l, bc, Seen(l, FirstS(s, |old(g.m)|)), labs1, bc1, x)
      ensures r.Refused? ==> Full() || !Placed(s, l.Loop?)
    {
      labs1, bc1, x := labs, bc, {};
      if s.ExprStmt? || s.Return? || s.ReturnNil? {
        LabelsUnused(m, |g.m|, s, l);
        r := SimpleStmt(s);
        if r.Fine? { StatedPlain(m, old(g), g, l, labs, bc); }
      } else if labs.NoLabs? {
        r := Refused("can only be used within a loop");
      } else if s.Break? {
        r, labs1, bc1, x := BreakStmt(labs, l, bc);
      } else {
        r, labs1, x := ContinueStmt(labs, l, bc);
      }
    }

    method Statements(list: Stmts, labs: Labs, ghost l: Labels, ghost bc: seq<int>)
      returns (r: Compiled, labs1: Labs, ghost bc1: seq<int>, ghost x: set<int>)
      requires Valid() && HasSS(m, |g.m|, list, l) && Held(g, l, labs, bc)
      modifies this
      ensures r.Fine? ==> Valid() && PlacedAll(list, l.Loop?)
      ensures r.Fine? ==> |g.m| == |old(g.m)| + SizeSS(list) && Stated(old(g), g, l, bc, Seen(l, FirstSS(list, |old(g.m)|)), labs1, bc1, x)
      ensures r.Refused? ==> Full() || !PlacedAll(list, l.Loop?)
      decreases list, 0
    {
      labs1, bc1, x := labs, bc, {};
      if list.End? {
        WaitsRefl(g);
        return Fine, labs1, bc1, x;
      }
      MoreParts(m, |g.m|, list, l);
      r, labs1, bc1, x := Statement(list.first, labs, l, bc);
      if r.Refused? { return; }
      r, labs1, bc1, x := MoreStatements(list, labs1, l, bc, Seen(l, FirstS(list.first, |old(g.m)|)), bc1, x, old(g));
    }

    /** The statements after the first. */
    method MoreStatements(list: Stmts, labs: Labs, ghost l0: Labels, ghost bc0: seq<int>, ghost l: Labels, ghost bc: seq<int>, ghost x0: set<int>, ghost a: Gen)
      returns (r: Compiled, labs1: Labs, ghost bc1: seq<int>, ghost x: set<int>)
      requires Valid() && list.Seq? && HasSS(m, |g.m|, list.rest, l) && l == Seen(l0, FirstS(list.first, |a.m|)) && |g.m| == |a.m| + SizeS(list.first)
      requires Stated(a, g, l0, bc0, l, labs, bc, x0)
      modifies this
      ensures r.Fine? ==> Valid() && PlacedAll(list.rest, l.Loop?)
      ensures r.Fine? ==> |g.m| == |a.m| + SizeSS(list) && Stated(a, g, l0, bc0, Seen(l0, FirstSS(list, |a.m|)), labs1, bc1, x)
      ensures r.Refused? ==> Full() || !PlacedAll(list.rest, l.Loop?)
      decreases list.rest, 1
    {
      ghost var b := g;
      r, labs1, bc1, x := Statements(list.rest, labs, l, bc);
      if r.Fine? {
        SequenceStated(a, b, g, list, l0, bc0, l, labs, bc, x0, labs1, bc1, x);
        x := x0 + x;
      }
    }

    /** A jump over a statement, and the statement. */
    method GuardedStmt(oc: byte, ghost op: Op, s: Stmt, labs: Labs, ghost l: Labels, ghost bc: seq<int>)
      returns (r: Compiled, f: int, labs1: Labs, ghost bc1: seq<int>, ghost x: set<int>)
      requires Valid() && IsJump(op) && JumpTo(oc, op.to) == Some(op) && OpAt(m, |g.m|, op) && HasS(m, |g.m| + 1, s, l)
      requires Held(g, l, labs, bc)
      modifies this
      ensures r.Fine? ==> Valid() && Placed(s, l.Loop?)
      ensures r.Fine? ==> |g.m| == |old(g.m)| + 1 + SizeS(s) && Guarded(old(g), g, |old(g.m)|, f, op.to, l, bc, Seen(l, FirstS(s, |old(g.m)| + 1)), labs1, bc1, x)
      ensures r.Refused? ==> Full() || !Placed(s, l.Loop?)
      decreases s, 5
    {
      ghost var k := |g.m|;
      labs1, bc1, x := labs, bc, {};
      r, f := ForwardJump(oc, op);
      if r.Refused? { return; }
      ghost var b := g;
      HeldOn(m, old(g), b, {k}, l, labs, bc);
      r, labs1, bc1, x := Statement(s, labs, l, bc);
      if r.Fine? {
        GuardedDone(m, old(g), b, g, k, f, op.to, l, labs, bc, Seen(l, FirstS(s, k + 1)), labs1, bc1, x);
      }
    }

    method IfStmt(s: Stmt, labs: Labs, ghost l: Labels, ghost bc: seq<int>)
      returns (r: Compiled, labs1: Labs, ghost bc1: seq<int>, ghost x: set<int>)
      requires Valid() && s.If? && HasS(m, |g.m|, s, l) && Held(g, l, labs, bc)
      modifies this
      ensures r.Fine? ==> Valid() && Placed(s, l.Loop?)
      ensures r.Fine? ==> |g.m| == |old(g.m)| + SizeS(s) && Stated(old(g), g, l, bc, Seen(l, FirstS(s, |old(g.m)|)), labs1, bc1, x)
      ensures r.Refused? ==> Full() || !Placed(s, l.Loop?)
      decreases s, 3
    {
      labs1, bc1, x := labs, bc, {};
      IfParts(m, |g.m|, s, l, |g.m| + SizeE(s.c) + 1);
      IfSizes(s, |g.m|);
      r := Expr(s.c);
      if r.Refused? { return; }
      ghost var b, k := g, |g.m|;
      StatedPlain(m, old(g), b, l, labs, bc);
      r, labs1, bc1, x := ThenPart(s.t, labs, l, bc);
      if r.Fine? {
        StatedTrans(old(g), b, g, l, bc, l, labs, bc, {}, Seen(l, FirstS(s.t, k + 1)), labs1, bc1, x);
        assert {} + x == x;
      }
    }

    /** The statement of an if without else, after its condition. */
    method ThenPart(s: Stmt, labs: Labs, ghost l: Labels, ghost bc: seq<int>)
      returns (r: Compiled, labs1: Labs, ghost bc1: seq<int>, ghost x: set<int>)
      requires Valid() && OpAt(m, |g.m|, JumpFalse(|g.m| + 1 + SizeS(s))) && HasS(m, |g.m| + 1, s, l) && Held(g, l, labs, bc)
      modifies this
      ensures r.Fine? ==> Valid() && Placed(s, l.Loop?)
      ensures r.Fine? ==> |g.m| == |old(g.m)| + 1 + SizeS(s) && Stated(old(g), g, l, bc, Seen(l, FirstS(s, |old(g.m)| + 1)), labs1, bc1, x)
      ensures r.Refused? ==> Full() || !Placed(s, l.Loop?)
      decreases s, 6
    {
      ghost var k := |g.m|;
      var f;
      r, f, labs1, bc1, x := GuardedStmt(ocJumpFalse, JumpFalse(k + 1 + SizeS(s)), s, labs, l, bc);
      if r.Refused? { return; }
      ghost var c := g;
      r := PlaceOne(f, k, old(g), {k} + x);
      if r.Fine? {
        GuardedPlaced(m, old(g), c, g, k, f, |c.m|, l, bc, Seen(l, FirstS(s, k + 1)), labs1, bc1, x);
      }
    }

    method IfElseStmt(s: Stmt, labs: Labs, ghost l: Labels, ghost bc: seq<int>)
      returns (r: Compiled, labs1: Labs, ghost bc1: seq<int>, ghost x: set<int>)
      requires Valid() && s.IfElse? && HasS(m, |g.m|, s, l) && Held(g, l, labs, bc)
      modifies this
      ensures r.Fine? ==> Valid() && Placed(s, l.Loop?)
      ensures r.Fine? ==> |g.m| == |old(g.m)| + SizeS(s) && Stated(old(g), g, l, bc, Seen(l, FirstS(s, |old(g.m)|)), labs1, bc1, x)
      ensures r.Refused? ==> Full() || !Placed(s, l.Loop?)
      decreases s, 3
    {
      labs1, bc1, x := labs, bc, {};
      ghost var j := |g.m| + SizeE(s.c) + 1;
      ghost var k := j + SizeS(s.t) + 1;
      IfElseParts(m, |g.m|, s, l, j, k);
      IfElseSizes(s, |g.m|, j, k);
      r := Expr(s.c);
      if r.Refused? { return; }
      ghost var b := g;
      StatedPlain(m, old(g), b, l, labs, bc);
      r, labs1, bc1, x := BothParts(s, labs, l, bc, j, k);
      if r.Fine? {
        SeenTwice(l, FirstS(s.t, j), FirstS(s.f, k));
        StatedTrans(old(g), b, g, l, bc, l, labs, bc, {}, Seen(Seen(l, FirstS(s.t, j)), FirstS(s.f, k)), labs1, bc1, x);
        assert {} + x == x;
      }
    }

    /** Both statements of an if, after its condition. */
    method BothParts(s: Stmt, labs: Labs, ghost l: Labels, ghost bc: seq<int>, ghost j: int, ghost k: int)
      returns (r: Compiled, labs1: Labs, ghost bc1: seq<int>, ghost x: set<int>)
      requires Valid() && s.IfElse? && Held(g, l, labs, bc) && j == |g.m| + 1 && k == j + SizeS(s.t) + 1
      requires OpAt(m, |g.m|, JumpFalse(k)) && HasS(m, j, s.t, l)
      requires OpAt(m, k - 1, Jump(k + SizeS(s.f))) && HasS(m, k, s.f, Seen(l, FirstS(s.t, j)))
      modifies this
      ensures r.Fine? ==> Valid() && Placed(s.t, l.Loop?) && Placed(s.f, l.Loop?) && |g.m| == k + SizeS(s.f)
      ensures r.Fine? ==> Stated(old(g), g, l, bc, Seen(Seen(l, FirstS(s.t, j)), FirstS(s.f, k)), labs1, bc1, x)
      ensures r.Refused? ==> Full() || !Placed(s.t, l.Loop?) || !Placed(s.f, l.Loop?)
      decreases s, 2
    {
      var f;
      r, f, labs1, bc1, x := GuardedStmt(ocJumpFalse, JumpFalse(k), s.t, labs, l, bc);
      if r.Refused? { return; }
      ghost var l1 := Seen(l, FirstS(s.t, j));
      r, labs1, bc1, x := ElsePart(s.f, f, labs1, j - 1, k, k + SizeS(s.f), old(g), l, bc, l1, bc1, x);
    }

    /** A jump over the else part, the label that leads to it, and the else part. */
    method ElsePart(s: Stmt, f: int, labs: Labs, ghost j: int, ghost k: int, ghost t: int, ghost a: Gen, ghost l0: Labels, ghost bc0: seq<int>, ghost l: Labels, ghost bc: seq<int>, ghost x0: set<int>)
      returns (r: Compiled, labs1: Labs, ghost bc1: seq<int>, ghost x: set<int>)
      requires Valid() && Intact(m, a) && j == |a.m| && |g.m| > j && k == |g.m| + 1 && Guarded(a, g, j, f, k, l0, bc0, l, labs, bc, x0)
      requires t == k + SizeS(s) && OpAt(m, |g.m|, Jump(t)) && HasS(m, k, s, l)
      modifies this
      ensures r.Fine? ==> Valid() && Placed(s, l.Loop?) && |g.m| == t
      ensures r.Fine? ==> Stated(a, g, l0, bc0, Seen(l, FirstS(s, k)), labs1, bc1, x)
      ensures r.Refused? ==> Full() || !Placed(s, l.Loop?)
      decreases s, 6
    {
      labs1, bc1, x := labs, bc, {};
      var end;
      r, end := ElseHead(f, labs, j, k, t, a, l0, bc0, l, bc, x0);
      if r.Refused? { return; }
      r, labs1, bc1, x := SkippedStmt(s, end, labs, k - 1, t, a, l0, bc0, l, bc, x0);
    }

    method ElseHead(f: int, labs: Labs, ghost j: int, ghost k: int, ghost t: int, ghost a: Gen, ghost l0: Labels, ghost bc0: seq<int>, ghost l: Labels, ghost bc: seq<int>, ghost x0: set<int>)
      returns (r: Compiled, end: int)
      requires Valid() && Intact(m, a) && j == |a.m| && |g.m| > j && k == |g.m| + 1 && Guarded(a, g, j, f, k, l0, bc0, l, labs, bc, x0)
      requires OpAt(m, |g.m|, Jump(t))
      modifies this
      ensures r.Fine? ==> Valid() && |g.m| == k && Skips(a, g, k - 1, end, t, l0, bc0, l, labs, bc, x0)
      ensures r.Refused? ==> Full()
    {
      ghost var c := g;
      r, end := ElseJump(f, j, k - 1, t, a, {j} + x0);
      if r.Fine? { ElseReady(m, a, c, g, j, f, k, k - 1, end, t, l0, bc0, l, labs, bc, x0); }
    }

    /** A statement, and the label after it of the jump e that skips it. */
    method SkippedStmt(s: Stmt, end: int, labs: Labs, ghost e: int, ghost t: int, ghost a: Gen, ghost l0: Labels, ghost bc0: seq<int>, ghost l: Labels, ghost bc: seq<int>, ghost x0: set<int>)
      returns (r: Compiled, labs1: Labs, ghost bc1: seq<int>, ghost x: set<int>)
      requires Valid() && Intact(m, a) && e < |g.m| && t == |g.m| + SizeS(s) && Skips(a, g, e, end, t, l0, bc0, l, labs, bc, x0)
      requires HasS(m, |g.m|, s, l)
      modifies this
      ensures r.Fine? ==> Valid() && Placed(s, l.Loop?) && |g.m| == t
      ensures r.Fine? ==> Stated(a, g, l0, bc0, Seen(l, FirstS(s, |old(g.m)|)), labs1, bc1, x)
      ensures r.Refused? ==> Full() || !Placed(s, l.Loop?)
      decreases s, 5
    {
      ghost var d, y := g, {};
      r, labs1, bc1, y := Statement(s, labs, l, bc);
      x := x0 + y;
      if r.Refused? { return; }
      ghost var h, l1 := g, Seen(l, FirstS(s, |d.m|));
      ElseDone(m, a, d, h, e, end, t, l0, bc0, l, labs, bc, x0, l1, labs1, bc1, y);
      r := PlaceOne(end, e, a, x0 + {e} + y);
      if r.Fine? { ElsePlaced(m, a, h, g, e, l0, bc0, l1, labs1, bc1, x0, y); }
    }

    // ------------------------------------------------------------------- loops

    method LoopStmt(s: Stmt, ghost l: Labels) returns (r: Compiled)
      requires Valid() && IsLoop(s) && HasS(m, |g.m|, s, l)
      modifies this
      ensures r.Fine? ==> Valid() && Placed(s.b, true) && |g.m| == |old(g.m)| + SizeS(s) && Waits(old(g), g, {})
      ensures r.Refused? ==> Full() || !Placed(s.b, true)
      decreases s, 3
    {
      ghost var y := LayoutOf(s, |g.m|);
      LoopIsDue(m, |g.m|, s, l, y);
      if s.Forever? {
        r := ForeverStmt(s.b, y);
      } else if s.While? {
        r := WhileStmt(s.c, s.b, y);
      } else if s.DoWhile? {
        r := PlainLoop(s.b, Nil, Some(s.c), y);
      } else {
        r := ForStmt(s, y);
      }
    }

    method ForeverStmt(b: Stmt, ghost y: Layout) returns (r: Compiled)
      requires Valid() && DueLoop(m, y) && y.b == b && y.cond.None? && y.inc.Nil? && y.cont == Back(y.top) && |g.m| == y.top
      modifies this
      ensures r.Fine? ==> Valid() && Placed(b, true) && |g.m| == y.end && Waits(old(g), g, {})
      ensures r.Refused? ==> Full() || !Placed(b, true)
      decreases b, 8
    {
      var cont := Label();
      ghost var a := g;
      r := Round(b, Nil, None, false, cont, cont, y);
      Waits0(old(g), a, g, {});
    }

    method WhileStmt(c: Expr, b: Stmt, ghost y: Layout) returns (r: Compiled)
      requires Valid() && DueLoop(m, y) && y.b == b && y.cond == Some(c) && y.inc.Nil? && y.cont == Back(|g.m|) && y.top == |g.m| + 1
      requires OpAt(m, |g.m|, Jump(y.test))
      modifies this
      ensures r.Fine? ==> Valid() && Placed(b, true) && |g.m| == y.end && Waits(old(g), g, {})
      ensures r.Refused? ==> Full() || !Placed(b, true)
      decreases b, 9
    {
      var cont := Label();
      ghost var a := g;
      r := TestedLoop(b, Nil, Some(c), false, cont, y);
      Waits0(old(g), a, g, {});
    }

    /** do-while, and for without a condition. */
    method PlainLoop(b: Stmt, inc: Exprs, cond: Option<Expr>, ghost y: Layout) returns (r: Compiled)
      requires Valid() && DueLoop(m, y) && y.b == b && y.cond == cond && y.inc == inc && y.cont == Fwd(y.inc0, None) && |g.m| == y.top
      modifies this
      ensures r.Fine? ==> Valid() && Placed(b, true) && |g.m| == y.end && Waits(old(g), g, {})
      ensures r.Refused? ==> Full() || !Placed(b, true)
      decreases b, 8
    {
      var loop := Label();
      ghost var a := g;
      NonePend(g, y.inc0);
      r := Round(b, inc, cond, true, -1, loop, y);
      Waits0(old(g), a, g, {});
    }

    method ForStmt(s: Stmt, ghost y: Layout) returns (r: Compiled)
      requires Valid() && s.For? && DueLoop(m, y) && y == LayoutOf(s, |g.m|)
      requires HasList(m, |g.m|, s.init) && (s.cond.Some? ==> OpAt(m, |g.m| + SizeList(s.init), Jump(y.test)))
      modifies this
      ensures r.Fine? ==> Valid() && Placed(s.b, true) && |g.m| == y.end && Waits(old(g), g, {})
      ensures r.Refused? ==> Full() || !Placed(s.b, true)
      decreases s, 2
    {
      r := ExprList(s.init);
      if r.Refused? { return; }
      ghost var a := g;
      if s.cond.Some? {
        NonePend(g, y.inc0);
        r := TestedLoop(s.b, s.inc, s.cond, true, -1, y);
      } else {
        r := PlainLoop(s.b, s.inc, s.cond, y);
      }
      Waits0(old(g), a, g, {});
    }

    method ExprList(list: Exprs) returns (r: Compiled)
      requires Valid() && HasList(m, |g.m|, list)
      modifies this
      ensures r.Fine? ==> Valid() && |g.m| == |old(g.m)| + SizeList(list) && Waits(old(g), g, {})
      ensures r.Refused? ==> Full()
    {
      var rest := list;
      WaitsRefl(g);
      while rest.Cons?
        invariant Valid() && Waits(old(g), g, {}) && HasList(m, |g.m|, rest)
        invariant |g.m| + SizeList(rest) == |old(g.m)| + SizeList(list)
        decreases rest
      {
        ghost var b := g;
        ListParts(m, |g.m|, rest);
        :- Expr(rest.head);
        ghost var c := g;
        Waits0(old(g), b, c, {});
        EmitOp(ocPop, [], Pop);
        Waits0(old(g), c, g, {});
        rest := rest.tail;
      }
      r := Fine;
    }

    /** The body of a loop with its label at hand, the increment, the test and the end. */
    method Round(b: Stmt, inc: Exprs, cond: Option<Expr>, fwd: bool, cont: int, loop: int, ghost y: Layout) returns (r: Compiled)
      requires Valid() && DueLoop(m, y) && y.b == b && y.cond == cond && y.inc == inc && |g.m| == y.top
      requires fwd == y.cont.Fwd? && ContHeld(g, y.cont, cont) && Marks(g, y.top, loop)
      modifies this
      ensures r.Fine? ==> Valid() && Placed(b, true) && |g.m| == y.end && Waits(old(g), g, {})
      ensures r.Refused? ==> Full() || !Placed(b, true)
      decreases b, 7
    {
      var brk;
      ghost var bc;
      r, brk, bc := BodyAndIncrement(b, inc, fwd, cont, y);
      if r.Refused? { return; }
      WaitsPasses(old(g), g, Elems(bc));
      MarksPass(m, old(g), g, {}, y.top, loop);
      r := LoopEnd(cond, loop, brk, bc, old(g), y);
    }

    /** A jump to the test first. */
    method TestedLoop(b: Stmt, inc: Exprs, cond: Option<Expr>, fwd: bool, cont: int, ghost y: Layout) returns (r: Compiled)
      requires Valid() && DueLoop(m, y) && y.b == b && y.cond == cond && y.inc == inc && |g.m| + 1 == y.top
      requires fwd == y.cont.Fwd? && ContHeld(g, y.cont, cont) && OpAt(m, |g.m|, Jump(y.test))
      modifies this
      ensures r.Fine? ==> Valid() && Placed(b, true) && |g.m| == y.end && Waits(old(g), g, {})
      ensures r.Refused? ==> Full() || !Placed(b, true)
      decreases b, 8
    {
      ghost var a, k := g, |g.m|;
      var test;
      r, test := ForwardJump(ocJump, Jump(y.test));
      if r.Refused? { return; }
      ghost var c := g;
      var loop := Label();
      ghost var d := g;
      Waits0(a, c, d, {k});
      ContHeldOn(m, a, d, {k}, y.cont, cont);
      PendsOn(m, c, d, {}, [k], test, y.test);
      var brk;
      ghost var bc;
      r, brk, bc := BodyAndIncrement(b, inc, fwd, cont, y);
      if r.Refused? { return; }
      r := TestedEnd(cond, test, loop, brk, bc, a, d, k, y);
    }

    /** The label of the jump to the test, the test and the end. */
    method TestedEnd(cond: Option<Expr>, test: int, loop: int, brk: int, ghost bc: seq<int>, ghost a: Gen, ghost d: Gen, ghost k: int, ghost y: Layout) returns (r: Compiled)
      requires Valid() && Intact(m, a) && Intact(m, d) && k == |a.m| && |d.m| == k + 1 && Waits(a, d, {k}) && Pends(d, [k], test, y.test) && Marks(d, y.top, loop)
      requires Waits(d, g, Elems(bc)) && Pends(g, bc, brk, y.end) && |g.m| == y.test && y.cond == cond && HasTest(m, y.test, y.cond, y.top) && y.end == y.test + SizeTest(y.cond)
      modifies this
      ensures r.Fine? ==> Valid() && |g.m| == y.end && Waits(a, g, {})
      ensures r.Refused? ==> Full()
    {
      ghost var h := g;
      NewAbove(d, h, Elems(bc));
      assert k !in Elems(bc);
      WaitsTrans(a, d, h, {k}, Elems(bc));
      PendsOn(m, d, h, Elems(bc), [k], test, y.test);
      WaitsPasses(d, h, Elems(bc));
      MarksPass(m, d, h, {}, y.top, loop);
      :- PlaceOne(test, k, a, {k} + Elems(bc));
      assert {k} + Elems(bc) - {k} == Elems(bc);
      ElemsMore([], k);
      PlacesPasses(h, g, [k]);
      MarksPass(m, h, g, {k}, y.top, loop);
      PendsPass(m, h, g, {k}, bc, brk, y.end);
      r := LoopEnd(cond, loop, brk, bc, a, y);
    }

    /** The test, the jump back to the top, and the label of the breaks. */
    method LoopEnd(cond: Option<Expr>, loop: int, brk: int, ghost bc: seq<int>, ghost a: Gen, ghost y: Layout) returns (r: Compiled)
      requires Valid() && Intact(m, a) && Waits(a, g, Elems(bc)) && Pends(g, bc, brk, y.end) && Marks(g, y.top, loop)
      requires |g.m| == y.test && y.cond == cond && HasTest(m, y.test, y.cond, y.top) && y.end == y.test + SizeTest(y.cond)
      modifies this
      ensures r.Fine? ==> Valid() && |g.m| == y.end && Waits(a, g, {})
      ensures r.Refused? ==> Full()
    {
      ghost var b := g;
      :- TestJump(cond, loop, y.top);
      r := PlaceEnd(brk, bc, a, b);
    }

    method TestJump(cond: Option<Expr>, loop: int, ghost top: int) returns (r: Compiled)
      requires Valid() && HasTest(m, |g.m|, cond, top) && Marks(g, top, loop)
      modifies this
      ensures r.Fine? ==> Valid() && |g.m| == |old(g.m)| + SizeTest(cond) && Waits(old(g), g, {})
      ensures r.Refused? ==> Full()
    {
      if cond.None? {
        MarksLands(m, g, top, loop);
        r := EmitBwdJump(ocJump, loop, Jump(top));
      } else {
        TestParts(m, |g.m|, cond, top);
        :- Expr(cond.value);
        ghost var b := g;
        WaitsPasses(old(g), b, {});
        MarksPass(m, old(g), b, {}, top, loop);
        MarksLands(m, g, top, loop);
        r := EmitBwdJump(ocJumpTrue, loop, JumpTrue(top));
        Waits0(old(g), b, g, {});
      }
    }

    /** The body of a loop, the label of its continues, and the increment. */
    method BodyAndIncrement(b: Stmt, inc: Exprs, fwd: bool, cont: int, ghost y: Layout) returns (r: Compiled, brk: int, ghost bc: seq<int>)
      requires Valid() && DueLoop(m, y) && y.b == b && y.inc == inc && |g.m| == y.top && fwd == y.cont.Fwd? && ContHeld(g, y.cont, cont)
      modifies this
      ensures r.Fine? ==> Valid() && Placed(b, true) && |g.m| == y.test && Waits(old(g), g, Elems(bc)) && Pends(g, bc, brk, y.end)
      ensures r.Refused? ==> Full() || !Placed(b, true)
      decreases b, 6
    {
      var cont1;
      ghost var cc;
      r, brk, cont1, bc, cc := LoopBody(b, cont, y);
      if r.Refused? { return; }
      r := EndOfBody(fwd, cont1, brk, bc, cc, old(g), y);
      if r.Refused? { return; }
      ghost var d := g;
      r := ExprList(inc);
      if r.Fine? {
        Waits0(old(g), d, g, Elems(bc));
        PendsOn(m, d, g, {}, bc, brk, y.end);
      }
    }

    /** The label of the continues that wait, if any. */
    method EndOfBody(fwd: bool, cont: int, brk: int, ghost bc: seq<int>, ghost cc: seq<int>, ghost a: Gen, ghost y: Layout) returns (r: Compiled)
      requires Valid() && Intact(m, a) && Waits(a, g, Elems(bc) + Elems(cc)) && Elems(bc) !! Elems(cc) && Pends(g, bc, brk, y.end)
      requires fwd == y.cont.Fwd? && if y.cont.Back? then cc == [] else Pends(g, cc, cont, |g.m|)
      modifies this
      ensures r.Fine? ==> Valid() && |g.m| == |old(g.m)| && Waits(a, g, Elems(bc)) && Pends(g, bc, brk, y.end)
      ensures r.Refused? ==> Full()
    {
      if !fwd {
        assert Elems(bc) + Elems(cc) == Elems(bc);
        return Fine;
      }
      ghost var c := g;
      :- PlaceLabel(cont, cc);
      WaitsPlaced(m, a, c, g, Elems(bc) + Elems(cc), cc);
      assert Elems(bc) + Elems(cc) - Elems(cc) == Elems(bc);
      PlacesPasses(c, g, cc);
      PendsPass(m, c, g, Elems(cc), bc, brk, y.end);
      r := Fine;
    }

    method LoopBody(b: Stmt, cont: int, ghost y: Layout) returns (r: Compiled, brk: int, cont1: int, ghost bc: seq<int>, ghost cc: seq<int>)
      requires Valid() && DueLoop(m, y) && y.b == b && |g.m| == y.top && ContHeld(g, y.cont, cont)
      modifies this
      ensures r.Fine? ==> Valid() && Placed(b, true) && |g.m| == y.inc0 && Waits(old(g), g, Elems(bc) + Elems(cc)) && Elems(bc) !! Elems(cc)
      ensures r.Fine? ==> Pends(g, bc, brk, y.end) && if y.cont.Back? then cc == [] else Pends(g, cc, cont1, |g.m|)
      ensures r.Refused? ==> Full() || !Placed(b, true)
      decreases b, 5
    {
      ghost var l, x := Loop(y.end, y.cont), {};
      var labs;
      NonePend(g, y.end);
      ElemsMore([], 0);
      r, labs, bc, x := Statement(b, Labs(-1, cont), l, []);
      cc := [];
      if r.Refused? { return r, -1, -1, bc, cc; }
      ghost var l1 := Seen(l, FirstS(b, y.top));
      brk, cont1, cc := labs.brk, labs.cont, ContChain(l1.cont);
      assert Owned(l, []) == {};
      assert x == Elems(bc) + Elems(cc);
    }

    // ------------------------------------------------------------------ switch

    method SwitchStmt(s: Stmt, labs: Labs, ghost l: Labels, ghost bc: seq<int>)
      returns (r: Compiled, labs1: Labs, ghost bc1: seq<int>, ghost x: set<int>)
      requires Valid() && s.Switch? && HasS(m, |g.m|, s, l) && Held(g, l, labs, bc)
      modifies this
      ensures r.Fine? ==> Valid() && Placed(s, l.Loop?)
      ensures r.Fine? ==> |g.m| == |old(g.m)| + SizeS(s) && Stated(old(g), g, l, bc, Seen(l, FirstS(s, |old(g.m)|)), labs1, bc1, x)
      ensures r.Refused? ==> Full() || !Placed(s, l.Loop?)
      decreases s, 3
    {
      labs1, bc1, x := labs, bc, {};
      ghost var j, end := |g.m| + SizeE(s.e), |g.m| + SizeS(s);
      ghost var k := j + SizeCases(s.cases);
      SwitchParts(m, |g.m|, s, l, j, k, end);
      SwitchSizes(s, |g.m|, j, k);
      r := Expr(s.e);
      if r.Refused? { return; }
      ghost var b := g;
      StatedPlain(m, old(g), b, l, labs, bc);
      r, labs1, bc1, x := SwitchBody(s, labs, l, bc, j, k, end);
      if r.Fine? {
        SeenTwice(l, FirstCases(s.cases, j), FirstDefault(s.default, k));
        StatedTrans(old(g), b, g, l, bc, l, labs, bc, {}, Seen(Seen(l, FirstCases(s.cases, j)), FirstDefault(s.default, k)), labs1, bc1, x);
        assert {} + x == x;
      }
    }

    /** The cases and the default, after the value. */
    method SwitchBody(s: Stmt, labs: Labs, ghost l: Labels, ghost bc: seq<int>, ghost j: int, ghost k: int, ghost end: int)
      returns (r: Compiled, labs1: Labs, ghost bc1: seq<int>, ghost x: set<int>)
      requires Valid() && s.Switch? && Held(g, l, labs, bc) && j == |g.m| && k == j + SizeCases(s.cases) && end == k + SizeDefault(s.default)
      requires HasCases(m, j, s.cases, end, l) && HasDefault(m, k, s.default, Seen(l, FirstCases(s.cases, j)))
      modifies this
      ensures r.Fine? ==> Valid() && PlacedCases(s.cases, l.Loop?) && (s.default.Some? ==> PlacedAll(s.default.value, l.Loop?)) && |g.m| == end
      ensures r.Fine? ==> Stated(old(g), g, l, bc, Seen(Seen(l, FirstCases(s.cases, j)), FirstDefault(s.default, k)), labs1, bc1, x)
      ensures r.Refused? ==> Full() || !PlacedCases(s.cases, l.Loop?) || (s.default.Some? && !PlacedAll(s.default.value, l.Loop?))
      decreases s, 2
    {
      var lab;
      ghost var ec, y := [], {};
      NonePend(g, end);
      ElemsMore([], 0);
      r, lab, labs1, bc1, ec, x, y := CaseList(s.cases, -1, labs, l, bc, [], end);
      if r.Refused? { return; }
      r, labs1, bc1, x := SwitchEnd(s.default, lab, labs1, l, bc, Seen(l, FirstCases(s.cases, j)), bc1, ec, end, x, y, old(g));
    }

    /** The default, and the label at the end of the switch. */
    method SwitchEnd(default: Option<Stmts>, lab: int, labs: Labs, ghost l0: Labels, ghost bc0: seq<int>, ghost l: Labels, ghost bc: seq<int>, ghost ec: seq<int>, ghost end: int, ghost x0: set<int>, ghost y: set<int>, ghost a: Gen)
      returns (r: Compiled, labs1: Labs, ghost bc1: seq<int>, ghost x: set<int>)
      requires Valid() && Intact(m, a) && HasDefault(m, |g.m|, default, l) && end == |g.m| + SizeDefault(default) && Elems(ec) == y
      requires Cased(a, g, l0, bc0, [], l, labs, bc, ec, lab, end, x0, y)
      modifies this
      ensures r.Fine? ==> Valid() && (default.Some? ==> PlacedAll(default.value, l.Loop?)) && |g.m| == end
      ensures r.Fine? ==> Stated(a, g, l0, bc0, Seen(l, FirstDefault(default, |old(g.m)|)), labs1, bc1, x)
      ensures r.Refused? ==> Full() || (default.Some? && !PlacedAll(default.value, l.Loop?))
      decreases default, 2
    {
      ghost var b, x2 := g, {};
      r, labs1, bc1, x2 := Default(default, labs, l, bc);
      x := x0 + x2;
      if r.Refused? { return; }
      ghost var c := g;
      PendsOn(m, b, c, x2, ec, lab, end);
      r := PlaceLabel(lab, ec);
      if r.Fine? {
        SwitchPlaced(m, a, b, c, g, l0, bc0, l, labs, bc, ec, lab, end, x0, y, Seen(l, FirstDefault(default, |b.m|)), labs1, bc1, x2);
      }
    }

    method CaseList(cases: Cases, lab: int, labs: Labs, ghost l: Labels, ghost bc: seq<int>, ghost ec: seq<int>, ghost end: int)
      returns (r: Compiled, lab1: int, labs1: Labs, ghost bc1: seq<int>, ghost ec1: seq<int>, ghost x: set<int>, ghost y: set<int>)
      requires Valid() && HasCases(m, |g.m|, cases, end, l) && Held(g, l, labs, bc) && Pends(g, ec, lab, end) && Elems(ec) !! Owned(l, bc)
      modifies this
      ensures r.Fine? ==> Valid() && PlacedCases(cases, l.Loop?) && |g.m| == |old(g.m)| + SizeCases(cases)
      ensures r.Fine? ==> Cased(old(g), g, l, bc, ec, Seen(l, FirstCases(cases, |old(g.m)|)), labs1, bc1, ec1, lab1, end, x, y)
      ensures r.Refused? ==> Full() || !PlacedCases(cases, l.Loop?)
      decreases cases, 1
    {
      lab1, labs1, bc1, ec1, x, y := lab, labs, bc, ec, {}, {};
      if cases.NoCases? {
        WaitsRefl(g);
        assert Elems(ec) == Elems(ec) + {};
        assert Owned(l, bc) == Owned(l, bc) + {};
        assert x + y == {};
        return Fine, lab1, labs1, bc1, ec1, x, y;
      }
      ghost var j := |g.m| + SizeTests(cases.e, cases.more);
      ghost var k := j + SizeSS(cases.body) + 1;
      DueCase(m, |g.m|, cases, end, l, j, k);
      CaseSizes(cases, |g.m|, j, k);
      r, lab1, labs1, bc1, ec1, x := OneCase(cases, lab, labs, l, bc, ec, end, j, k);
      if r.Refused? { return; }
      ghost var b, l1, labs0, bc0, ec0, lab0, x0 := g, Seen(l, FirstSS(cases.body, j)), labs1, bc1, ec1, lab1, x;
      r, lab1, labs1, bc1, ec1, x, y := CaseList(cases.rest, lab1, labs1, l1, bc1, ec1, end);
      if r.Fine? {
        SeenTwice(l, FirstSS(cases.body, j), FirstCases(cases.rest, k));
        CasedTrans(old(g), b, g, l, bc, ec, l1, labs0, bc0, ec0, lab0, end, x0, {k - 1}, Seen(l1, FirstCases(cases.rest, k)), labs1, bc1, ec1, lab1, x, y);
        x, y := x0 + x, {k - 1} + y;
      }
    }

    method OneCase(cases: Cases, lab: int, labs: Labs, ghost l: Labels, ghost bc: seq<int>, ghost ec: seq<int>, ghost end: int, ghost j: int, ghost k: int)
      returns (r: Compiled, lab1: int, labs1: Labs, ghost bc1: seq<int>, ghost ec1: seq<int>, ghost x: set<int>)
      requires Valid() && cases.Case? && Held(g, l, labs, bc) && Pends(g, ec, lab, end) && Elems(ec) !! Owned(l, bc)
      requires j == |g.m| + SizeTests(cases.e, cases.more) && k == j + SizeSS(cases.body) + 1
      requires DueTests(m, |g.m|, cases.e, cases.more, j, k) && HasSS(m, j, cases.body, l) && OpAt(m, k - 1, Jump(end))
      modifies this
      ensures r.Fine? ==> Valid() && PlacedAll(cases.body, l.Loop?) && |g.m| == k
      ensures r.Fine? ==> Cased(old(g), g, l, bc, ec, Seen(l, FirstSS(cases.body, j)), labs1, bc1, ec1, lab1, end, x, {k - 1})
      ensures r.Refused? ==> Full() || !PlacedAll(cases.body, l.Loop?)
      decreases cases, 0
    {
      lab1, labs1, bc1, ec1, x := lab, labs, bc, ec + [k - 1], {};
      ghost var a := g;
      var la;
      r, la := CaseHead(cases.e, cases.more, j, k);
      if r.Refused? { return; }
      HeldOn(m, a, g, {j - 1}, l, labs, bc);
      r, lab1, labs1, bc1, x := CaseBody(cases.body, lab, la, labs, l, bc, ec, end, a, k);
    }

    /** The statements of a case, and what follows them. */
    method CaseBody(list: Stmts, lab: int, la: int, labs: Labs, ghost l: Labels, ghost bc: seq<int>, ghost ec: seq<int>, ghost end: int, ghost a: Gen, ghost k: int)
      returns (r: Compiled, lab1: int, labs1: Labs, ghost bc1: seq<int>, ghost x: set<int>)
      requires Valid() && k == |g.m| + SizeSS(list) + 1 && HasSS(m, |g.m|, list, l) && OpAt(m, k - 1, Jump(end))
      requires CaseBegun(m, a, g, l, labs, bc, ec, lab, end, |g.m| - 1, la, k)
      modifies this
      ensures r.Fine? ==> Valid() && PlacedAll(list, l.Loop?) && |g.m| == k
      ensures r.Fine? ==> Cased(a, g, l, bc, ec, Seen(l, FirstSS(list, |old(g.m)|)), labs1, bc1, ec + [k - 1], lab1, end, x, {k - 1})
      ensures r.Refused? ==> Full() || !PlacedAll(list, l.Loop?)
      decreases list, 1
    {
      lab1 := lab;
      ghost var b := g;
      r, labs1, bc1, x := Statements(list, labs, l, bc);
      if r.Refused? { return; }
      r, lab1 := CaseEnd(lab, la, labs, labs1, l, bc, ec, Seen(l, FirstSS(list, |b.m|)), bc1, x, end, a, b, |b.m| - 1, k);
    }

    /** The jump to the end of the switch, and the label of the next case. */
    method CaseEnd(lab: int, la: int, labs: Labs, labs1: Labs, ghost l: Labels, ghost bc: seq<int>, ghost ec: seq<int>, ghost l1: Labels, ghost bc1: seq<int>, ghost x: set<int>, ghost end: int, ghost a: Gen, ghost b: Gen, ghost ka: int, ghost k: int)
      returns (r: Compiled, lab1: int)
      requires Valid() && |g.m| == k - 1 && OpAt(m, k - 1, Jump(end)) && |b.m| <= k - 1
      requires CaseBegun(m, a, b, l, labs, bc, ec, lab, end, ka, la, k)
      requires Stated(b, g, l, bc, l1, labs1, bc1, x)
      modifies this
      ensures r.Fine? ==> Valid() && |g.m| == k && Cased(a, g, l, bc, ec, l1, labs1, bc1, ec + [k - 1], lab1, end, x, {k - 1})
      ensures r.Refused? ==> Full()
    {
      ghost var c := g;
      WaitsTrans(a, b, c, {ka}, x);
      PendsOn(m, a, c, {ka} + x, ec, lab, end);
      r, lab1 := EmitChained(ocJump, lab, Jump(end), ec);
      if r.Refused? { return; }
      ghost var d := g;
      PendsOn(m, b, c, x, [ka], la, k);
      PendsOn(m, c, d, {k - 1}, [ka], la, k);
      WaitsTrans(a, c, d, {ka} + x, {k - 1});
      r := PlaceOne(la, ka, a, {ka} + x + {k - 1});
      if r.Fine? {
        CaseDone(m, a, b, c, d, g, ka, la, k, lab, lab1, end, l, labs, bc, ec, l1, labs1, bc1, x, k - 1);
      }
    }

    /** The tests of a case, and the label of its body; the last jump waits for the next case. */
    method CaseHead(e: Expr, more: Exprs, ghost body: int, ghost after: int) returns (r: Compiled, la: int)
      requires Valid() && DueTests(m, |g.m|, e, more, body, after)
      modifies this
      ensures r.Fine? ==> Valid() && |g.m| == body && Waits(old(g), g, {body - 1}) && Pends(g, [body - 1], la, after)
      ensures r.Refused? ==> Full()
    {
      var x, rest, lb := e, more, -1;
      ghost var tc := [];
      WaitsRefl(g);
      NonePend(g, body);
      ElemsMore([], 0);
      while rest.Cons?
        invariant Valid() && Waits(old(g), g, Elems(tc)) && Pends(g, tc, lb, body)
        invariant DueTests(m, |g.m|, x, rest, body, after)
        decreases rest
      {
        r, lb, tc := NextTest(x, rest, lb, tc, body, after, old(g));
        if r.Refused? { return r, -1; }
        x, rest := rest.head, rest.tail;
      }
      TestsNextDue(m, |g.m|, x, rest, body, after);
      r, la := LastTest(x, lb, tc, body, after, old(g));
    }

    method NextTest(x: Expr, rest: Exprs, lab: int, ghost tc: seq<int>, ghost body: int, ghost after: int, ghost a: Gen)
      returns (r: Compiled, lab1: int, ghost tc1: seq<int>)
      requires Valid() && rest.Cons? && DueTests(m, |g.m|, x, rest, body, after) && Waits(a, g, Elems(tc)) && Pends(g, tc, lab, body)
      modifies this
      ensures r.Fine? ==> Valid() && DueTests(m, |g.m|, rest.head, rest.tail, body, after)
      ensures r.Fine? ==> Waits(a, g, Elems(tc1)) && Pends(g, tc1, lab1, body)
      ensures r.Refused? ==> Full()
    {
      ghost var k := |g.m| + SizeE(x);
      TestsNextDue(m, |g.m|, x, rest, body, after);
      tc1 := tc + [k];
      r, lab1 := TestIs(x, lab, tc, body);
      WaitsMore(a, old(g), g, tc, k);
    }

    method TestIs(x: Expr, lab: int, ghost tc: seq<int>, ghost body: int) returns (r: Compiled, lab1: int)
      requires Valid() && HasE(m, |g.m|, x) && OpAt(m, |g.m| + SizeE(x), JumpIs(body)) && Pends(g, tc, lab, body)
      modifies this
      ensures r.Fine? ==> Valid() && |g.m| == |old(g.m)| + SizeE(x) + 1 && Waits(old(g), g, {|old(g.m)| + SizeE(x)})
      ensures r.Fine? ==> Pends(g, tc + [|old(g.m)| + SizeE(x)], lab1, body)
      ensures r.Refused? ==> Full()
    {
      lab1 := lab;
      r := Expr(x);
      if r.Refused? { return; }
      ghost var b := g;
      PendsOn(m, old(g), b, {}, tc, lab, body);
      r, lab1 := EmitChained(ocJumpIs, lab, JumpIs(body), tc);
      Waits0(old(g), b, g, {|b.m|});
    }

    method LastTest(x: Expr, lb: int, ghost tc: seq<int>, ghost body: int, ghost after: int, ghost a: Gen) returns (r: Compiled, la: int)
      requires Valid() && Intact(m, a) && Waits(a, g, Elems(tc)) && Pends(g, tc, lb, body)
      requires HasE(m, |g.m|, x) && OpAt(m, |g.m| + SizeE(x), JumpIsnt(after)) && body == |g.m| + SizeE(x) + 1
      modifies this
      ensures r.Fine? ==> Valid() && |g.m| == body && Waits(a, g, {body - 1}) && Pends(g, [body - 1], la, after)
      ensures r.Refused? ==> Full()
    {
      la := -1;
      r := Expr(x);
      if r.Refused? { return; }
      ghost var b := g;
      PendsOn(m, old(g), b, {}, tc, lb, body);
      Waits0(a, old(g), b, Elems(tc));
      r, la := ForwardJump(ocJumpIsnt, JumpIsnt(after));
      if r.Refused? { return; }
      r := PlaceTests(lb, tc, la, body, after, a, b);
    }

    /** Places the label of the tests that succeed, where the body of the case starts. */
    method PlaceTests(lb: int, ghost tc: seq<int>, ghost la: int, ghost body: int, ghost after: int, ghost a: Gen, ghost b: Gen) returns (r: Compiled)
      requires Valid() && Intact(m, a) && Intact(m, b) && |b.m| == body - 1 && |g.m| == body
      requires Waits(a, b, Elems(tc)) && Pends(b, tc, lb, body) && Waits(b, g, {body - 1}) && Pends(g, [body - 1], la, after)
      modifies this
      ensures r.Fine? ==> Valid() && |g.m| == body && Waits(a, g, {body - 1}) && Pends(g, [body - 1], la, after)
      ensures r.Refused? ==> Full()
    {
      ghost var c := g;
      PendsRange(m, b, tc, lb, body);
      PendsOn(m, b, c, {body - 1}, tc, lb, body);
      WaitsTrans(a, b, c, Elems(tc), {body - 1});
      r := PlaceLabel(lb, tc);
      if r.Fine? {
        WaitsPlaced(m, a, c, g, Elems(tc) + {body - 1}, tc);
        assert body - 1 !in Elems(tc);
        assert Elems(tc) + {body - 1} - Elems(tc) == {body - 1};
        ElemsMore([], body - 1);
        PlacesPasses(c, g, tc);
        PendsPass(m, c, g, Elems(tc), [body - 1], la, after);
      }
    }

    /** Drops the value, then the default statements or the exception. */
    method Default(default: Option<Stmts>, labs: Labs, ghost l: Labels, ghost bc: seq<int>)
      returns (r: Compiled, labs1: Labs, ghost bc1: seq<int>, ghost x: set<int>)
      requires Valid() && Held(g, l, labs, bc) && HasDefault(m, |g.m|, default, l)
      modifies this
      ensures r.Fine? ==> Valid() && (default.Some? ==> PlacedAll(default.value, l.Loop?)) && |g.m| == |old(g.m)| + SizeDefault(default)
      ensures r.Fine? ==> Stated(old(g), g, l, bc, Seen(l, FirstDefault(default, |old(g.m)|)), labs1, bc1, x)
      ensures r.Refused? ==> Full() || (default.Some? && !PlacedAll(default.value, l.Loop?))
      decreases default, 1
    {
      labs1, bc1, x := labs, bc, {};
      DefaultParts(m, |g.m|, default, l);
      EmitOp(ocPop, [], Pop);
      ghost var b := g;
      StatedPlain(m, old(g), b, l, labs, bc);
      if default.Some? {
        r, labs1, bc1, x := Statements(default.value, labs, l, bc);
        if r.Fine? {
          StatedTrans(old(g), b, g, l, bc, l, labs, bc, {}, Seen(l, FirstSS(default.value, |b.m|)), labs1, bc1, x);
          assert {} + x == x;
        }
      } else {
        r := Unhandled1();
        Waits0(old(g), b, g, {});
        SeenTwice(l, None, None);
        if r.Fine? { StatedPlain(m, old(g), g, l, labs, bc); }
      }
    }

    method Unhandled1() returns (r: Compiled)
      requires Valid() && OpAt(m, |g.m|, Push(Unhandled)) && OpAt(m, |g.m| + 1, Throw)
      modifies this
      ensures r.Fine? ==> Valid() && |g.m| == |old(g.m)| + 2 && Waits(old(g), g, {})
      ensures r.Refused? ==> Full()
    {
      r := EmitValue(Unhandled);
      if r.Refused? { return; }
      ghost var b := g;
      EmitOp(ocThrow, [], Throw);
      Waits0(old(g), b, g, {});
      r := Fine;
    }

    // --------------------------------------------------------------- functions

    /** A whole function body. */
    method Function(body: Stmts) returns (r: Compiled)
      requires Valid() && HasF(m, 0, body) && g.m == [] && g.links == map[]
      modifies this
      ensures r.Fine? ==> Valid() && PlacedF(body) && |g.m| == |m| && Waits(old(g), g, {})
      ensures r.Refused? ==> Full() || !PlacedF(body)
    {
      var rest := body;
      WaitsRefl(g);
      while rest.Seq?
        invariant Valid() && HasF(m, |g.m|, rest) && Waits(old(g), g, {})
        invariant PlacedF(body) == PlacedF(rest)
        decreases rest
      {
        ghost var b := g;
        r := NextStmt(rest);
        if r.Refused? { return; }
        Waits0(old(g), b, g, {});
        rest := rest.rest;
      }
      BodyParts(m, |g.m|, rest);
      r := Fine;
    }

    /** The first of the statements that remain. */
    method NextStmt(rest: Stmts) returns (r: Compiled)
      requires Valid() && rest.Seq? && HasF(m, |g.m|, rest)
      modifies this
      ensures r.Fine? ==> Valid() && HasF(m, |g.m|, rest.rest) && Waits(old(g), g, {}) && PlacedF(rest) == PlacedF(rest.rest)
      ensures r.Refused? ==> Full() || !PlacedF(rest)
    {
      BodyParts(m, |g.m|, rest);
      r := TopStmt(rest.first, rest.rest.End?);
    }

    /** A statement of the function itself; the last one leaves its value on the stack. */
    method TopStmt(s: Stmt, last: bool) returns (r: Compiled)
      requires Valid() && HasTop(m, |g.m|, s, last)
      modifies this
      ensures r.Fine? ==> Valid() && Placed(s, false) && |g.m| == |old(g.m)| + SizeTop(s, last) && Waits(old(g), g, {})
      ensures r.Refused? ==> Full() || !Placed(s, false)
    {
      TopParts(m, |g.m|, s, last);
      if last && (s.ExprStmt? || s.Return?) {
        r := Expr(s.e);
      } else if last && s.ReturnNil? {
        WaitsRefl(g);
        r := Fine;
      } else {
        var labs;
        ghost var bc, x;
        assert HasS(m, |g.m|, s, NoLoop);
        r, labs, bc, x := Statement(s, NoLabs, NoLoop, []);
      }
    }
  }
}
