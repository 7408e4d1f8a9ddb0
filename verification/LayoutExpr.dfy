/**
  Where the instructions of an expression stand in a whole function's code.
  Every layout is sealed, as in Seal: a proof that takes one apart mentions Unfold.
  */
module LayoutExpr {
  import opened Ast
  import opened Ops
  import opened Seal

  predicate OpAt(m: seq<Op>, i: int, op: Op) { 0 <= i < |m| && m[i] == op }

  ghost predicate HasE(m: seq<Op>, i: int, e: Expr)
    decreases e, 2
  {
    var has := forall u: int {:trigger Unfold(u)} :: Unfold(u) ==> (
      if Leaf(e) then HasLeaf(m, i, e)
      else if e.Paren? then HasE(m, i, e.e)
      else if One(e) then HasE(m, i, e.e) && OpAt(m, i + SizeE(e.e), Op1(e))
      else if e.Recip? then OpAt(m, i, Push(Int(1))) && HasE(m, i + 1, e.e) && OpAt(m, i + 1 + SizeE(e.e), Arith(Div))
      else if Two(e) then
        HasE(m, i, e.l) && HasE(m, i + SizeE(e.l), e.r) && OpAt(m, i + SizeE(e.l) + SizeE(e.r), Op2(e))
      else if e.In? && e.rest.Nil? then OpAt(m, i, Push(Bool(false)))
      else HasE(m, i, Operand(e)) && HasRest(m, i, i + SizeE(Operand(e)), e));
    has
  }

  ghost predicate HasLeaf(m: seq<Op>, i: int, e: Expr)
    requires Leaf(e)
  {
    OpAt(m, i, CodeLeaf(e)[0]) && (e.IncDec? ==> OpAt(m, i + 1, CodeLeaf(e)[1]))
  }

  ghost predicate HasRest(m: seq<Op>, i: int, j: int, e: Expr)
    requires Long(e)
    decreases e, 1
  {
    var has := forall u: int {:trigger Unfold(u)} :: Unfold(u) ==> (
      match e
      case Nary(op, _, rest) => if Joins(op, rest) then HasJoin(m, j, rest, 1) else HasNary(m, j, op, rest)
      case Product(_, rest) => HasFactors(m, j, rest) && HasDivisors(m, j + SizeFactors(rest), rest, false)
      case AndOr(and, a, rest) => HasAndOr(m, j, and, a, rest, i + SizeE(e))
      case In(_, list) => HasIn(m, j, list, i + SizeE(e))
      case Cond(_, l, r) => HasArms(m, j, e));
    has
  }

  ghost predicate HasArms(m: seq<Op>, i: int, e: Expr)
    requires e.Cond?
    decreases e, 0
  {
    var has := forall u: int {:trigger Unfold(u)} :: Unfold(u) ==> (
      var k := i + 1 + SizeE(e.l) + 1;
      OpAt(m, i, QMark(k)) && HasE(m, i + 1, e.l) && OpAt(m, k - 1, Jump(k + SizeE(e.r))) && HasE(m, k, e.r));
    has
  }

  ghost predicate HasNary(m: seq<Op>, i: int, op: ArithOp, rest: Exprs)
    decreases rest, 0
  {
    var has := forall u: int {:trigger Unfold(u)} :: Unfold(u) ==> (
      rest.Nil?
      || var x := if Subtracts(op, rest.head) then rest.head.e else rest.head;
         HasE(m, i, x) && OpAt(m, i + SizeE(x), Arith(if Subtracts(op, rest.head) then Sub else op))
         && HasNary(m, i + SizeE(x) + 1, op, rest.tail));
    has
  }

  /** The operands that follow n others, and the instruction that concatenates them all. */
  ghost predicate HasJoin(m: seq<Op>, i: int, rest: Exprs, n: nat)
    decreases rest, 0
  {
    var has := forall u: int {:trigger Unfold(u)} :: Unfold(u) ==> (
      if rest.Nil? then OpAt(m, i, CatN(n))
      else HasE(m, i, rest.head) && HasJoin(m, i + SizeE(rest.head), rest.tail, n + 1));
    has
  }

  ghost predicate HasFactors(m: seq<Op>, i: int, rest: Exprs)
    decreases rest, 0
  {
    var has := forall u: int {:trigger Unfold(u)} :: Unfold(u) ==> (
      if rest.Nil? then true
      else if rest.head.Recip? then HasFactors(m, i, rest.tail)
      else
        HasE(m, i, rest.head) && OpAt(m, i + SizeE(rest.head), Arith(Mul))
        && HasFactors(m, i + SizeE(rest.head) + 1, rest.tail));
    has
  }

  ghost predicate HasDivisors(m: seq<Op>, i: int, rest: Exprs, begun: bool)
    decreases rest, 0
  {
    var has := forall u: int {:trigger Unfold(u)} :: Unfold(u) ==> (
      if rest.Nil? then begun ==> OpAt(m, i, Arith(Div))
      else if !rest.head.Recip? then HasDivisors(m, i, rest.tail, begun)
      else
        var j := i + SizeE(rest.head.e);
        HasE(m, i, rest.head.e) && (begun ==> OpAt(m, j, Arith(Mul)))
        && HasDivisors(m, if begun then j + 1 else j, rest.tail, true));
    has
  }

  ghost predicate HasAndOr(m: seq<Op>, i: int, and: bool, prev: Expr, rest: Exprs, end: int)
    decreases rest, 0
  {
    var has := forall u: int {:trigger Unfold(u)} :: Unfold(u) ==> (
      if rest.Nil? then (Checks(prev) ==> OpAt(m, i, Bool1))
      else
        OpAt(m, i, if and then And(end) else Or(end)) && HasE(m, i + 1, rest.head)
        && HasAndOr(m, i + 1 + SizeE(rest.head), and, rest.head, rest.tail, end));
    has
  }

  ghost predicate HasIn(m: seq<Op>, i: int, list: Exprs, end: int)
    decreases list, 0
  {
    var has := forall u: int {:trigger Unfold(u)} :: Unfold(u) ==> (
      list.Nil?
      || (HasE(m, i, list.head) && OpAt(m, i + SizeE(list.head), if list.tail.Nil? then Compare2(Is) else InJump(end))
          && HasIn(m, i + SizeE(list.head) + 1, list.tail, end)));
    has
  }

  ghost predicate HasList(m: seq<Op>, i: int, list: Exprs)
    decreases list
  {
    var has := forall u: int {:trigger Unfold(u)} :: Unfold(u) ==> (
      list.Nil?
      || (HasE(m, i, list.head) && OpAt(m, i + SizeE(list.head), Pop) && HasList(m, i + SizeE(list.head) + 1, list.tail)));
    has
  }

  // The parts of a layout.

  lemma LeafParts(m: seq<Op>, i: int, e: Expr)
    requires Leaf(e)
    ensures HasE(m, i, e) ==> HasLeaf(m, i, e)
  {
    if HasE(m, i, e) { assert Unfold(0); }
  }

  /** An expression with one operand. */
  lemma OneParts(m: seq<Op>, i: int, e: Expr)
    requires e.Paren? || One(e)
    ensures HasE(m, i, e) ==> HasE(m, i, e.e) && (One(e) ==> OpAt(m, i + SizeE(e.e), Op1(e)))
    ensures SizeE(e) == SizeE(e.e) + (if One(e) then 1 else 0)
  {
    if HasE(m, i, e) { assert Unfold(0); }
  }

  lemma RecipParts(m: seq<Op>, i: int, e: Expr)
    requires e.Recip?
    ensures HasE(m, i, e) ==> OpAt(m, i, Push(Int(1))) && HasE(m, i + 1, e.e) && OpAt(m, i + 1 + SizeE(e.e), Arith(Div))
    ensures SizeE(e) == SizeE(e.e) + 2
  {
    if HasE(m, i, e) { assert Unfold(0); }
  }

  lemma TwoParts(m: seq<Op>, i: int, e: Expr)
    requires Two(e)
    ensures HasE(m, i, e) ==> HasE(m, i, e.l) && HasE(m, i + SizeE(e.l), e.r) && OpAt(m, i + SizeE(e.l) + SizeE(e.r), Op2(e))
    ensures SizeE(e) == SizeE(e.l) + SizeE(e.r) + 1
  {
    if HasE(m, i, e) { assert Unfold(0); }
  }

  lemma NoneParts(m: seq<Op>, i: int, e: Expr)
    requires e.In? && e.rest.Nil?
    ensures HasE(m, i, e) ==> OpAt(m, i, Push(Bool(false)))
  {
    if HasE(m, i, e) { assert Unfold(0); }
  }

  lemma LongParts(m: seq<Op>, i: int, e: Expr, j: int)
    requires Long(e) && !(e.In? && e.rest.Nil?) && j == i + SizeE(Operand(e))
    ensures HasE(m, i, e) ==> HasE(m, i, Operand(e)) && HasRest(m, i, j, e)
    ensures i + SizeE(e) == j + SizeRest(e)
  {
    if HasE(m, i, e) { assert Unfold(0); }
  }

  lemma ArmsParts(m: seq<Op>, i: int, e: Expr, k: int, end: int)
    requires e.Cond? && k == i + 2 + SizeE(e.l) && end == k + SizeE(e.r)
    ensures HasArms(m, i, e) ==> OpAt(m, i, QMark(k)) && HasE(m, i + 1, e.l) && OpAt(m, k - 1, Jump(end)) && HasE(m, k, e.r)
  {
    if HasArms(m, i, e) { assert Unfold(0); }
  }

  lemma NaryParts(m: seq<Op>, i: int, op: ArithOp, rest: Exprs)
    requires rest.Cons?
    ensures var x := if Subtracts(op, rest.head) then rest.head.e else rest.head;
            HasNary(m, i, op, rest)
            ==> HasE(m, i, x) && OpAt(m, i + SizeE(x), Arith(if Subtracts(op, rest.head) then Sub else op)) && HasNary(m, i + SizeE(x) + 1, op, rest.tail)
  {
    if HasNary(m, i, op, rest) { assert Unfold(0); }
  }

  lemma JoinParts(m: seq<Op>, i: int, rest: Exprs, n: nat)
    ensures HasJoin(m, i, rest, n) && rest.Nil? ==> OpAt(m, i, CatN(n))
    ensures HasJoin(m, i, rest, n) && rest.Cons? ==> HasE(m, i, rest.head) && HasJoin(m, i + SizeE(rest.head), rest.tail, n + 1)
  {
    if HasJoin(m, i, rest, n) { assert Unfold(0); }
  }

  lemma FactorsParts(m: seq<Op>, i: int, rest: Exprs)
    requires rest.Cons?
    ensures HasFactors(m, i, rest) && rest.head.Recip? ==> HasFactors(m, i, rest.tail)
    ensures HasFactors(m, i, rest) && !rest.head.Recip?
        ==> HasE(m, i, rest.head) && OpAt(m, i + SizeE(rest.head), Arith(Mul)) && HasFactors(m, i + SizeE(rest.head) + 1, rest.tail)
  {
    if HasFactors(m, i, rest) { assert Unfold(0); }
  }

  lemma DivisorsParts(m: seq<Op>, i: int, rest: Exprs, begun: bool)
    ensures HasDivisors(m, i, rest, begun) && rest.Nil? && begun ==> OpAt(m, i, Arith(Div))
    ensures HasDivisors(m, i, rest, begun) && rest.Cons? && !rest.head.Recip? ==> HasDivisors(m, i, rest.tail, begun)
    ensures HasDivisors(m, i, rest, begun) && rest.Cons? && rest.head.Recip?
        ==> (var j := i + SizeE(rest.head.e);
             HasE(m, i, rest.head.e) && (begun ==> OpAt(m, j, Arith(Mul))) && HasDivisors(m, if begun then j + 1 else j, rest.tail, true))
  {
    if HasDivisors(m, i, rest, begun) { assert Unfold(0); }
  }

  lemma ListParts(m: seq<Op>, i: int, list: Exprs)
    requires list.Cons?
    ensures HasList(m, i, list)
        ==> HasE(m, i, list.head) && OpAt(m, i + SizeE(list.head), Pop) && HasList(m, i + SizeE(list.head) + 1, list.tail)
  {
    if HasList(m, i, list) { assert Unfold(0); }
  }

  lemma RestParts(m: seq<Op>, i: int, j: int, e: Expr, end: int)
    requires Long(e) && end == i + SizeE(e)
    ensures HasRest(m, i, j, e) && e.Nary? ==> if Joins(e.aop, e.rest) then HasJoin(m, j, e.rest, 1) else HasNary(m, j, e.aop, e.rest)
    ensures HasRest(m, i, j, e) && e.Product? ==> HasFactors(m, j, e.rest) && HasDivisors(m, j + SizeFactors(e.rest), e.rest, false)
    ensures HasRest(m, i, j, e) && e.AndOr? ==> HasAndOr(m, j, e.and, e.e, e.rest, end)
    ensures HasRest(m, i, j, e) && e.In? ==> HasIn(m, j, e.rest, end)
    ensures HasRest(m, i, j, e) && e.Cond? ==> HasArms(m, j, e)
  {
    if HasRest(m, i, j, e) { assert Unfold(0); }
  }

  lemma AndOrParts(m: seq<Op>, i: int, and: bool, prev: Expr, rest: Exprs, end: int)
    ensures HasAndOr(m, i, and, prev, rest, end) && rest.Nil? && Checks(prev) ==> OpAt(m, i, Bool1)
    ensures HasAndOr(m, i, and, prev, rest, end) && rest.Cons?
        ==> OpAt(m, i, if and then And(end) else Or(end)) && HasE(m, i + 1, rest.head)
            && HasAndOr(m, i + 1 + SizeE(rest.head), and, rest.head, rest.tail, end)
  {
    if HasAndOr(m, i, and, prev, rest, end) { assert Unfold(0); }
  }

  lemma InParts(m: seq<Op>, i: int, list: Exprs, end: int)
    requires list.Cons?
    ensures HasIn(m, i, list, end)
        ==> HasE(m, i, list.head) && OpAt(m, i + SizeE(list.head), if list.tail.Nil? then Compare2(Is) else InJump(end))
            && HasIn(m, i + SizeE(list.head) + 1, list.tail, end)
  {
    if HasIn(m, i, list, end) { assert Unfold(0); }
  }
}
