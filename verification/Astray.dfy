/**
  A forever loop that starts with a continue, compiled: the jump goes astray and the
  function ends although the program never does.
  */
module Astray {
  import opened Ast
  import opened Ops
  import opened Bytes
  import opened Encoding
  import opened LayoutExpr
  import opened LayoutStmt
  import opened Landing
  import opened Chains
  import opened Compiler

  /** x; forever { continue } */
  const program: Stmts := Seq(ExprStmt(Local("x")), Seq(Forever(Continue), End))

  lemma {:induction false} NeverEnds(p: Prims, env: Env, fuel: nat)
    ensures Rounds(p, None, Nil, Continue, env, fuel) == OutOfFuel
    decreases fuel
  {
    if fuel > 0 { NeverEnds(p, env, fuel - 1); }
  }

  lemma ProgramNeverEnds(p: Prims, env: Env, fuel: nat)
    requires "x" in env
    ensures Call(p, program, env, fuel) == OutOfFuel
  {
    NeverEnds(p, env, fuel);
    var rest := Seq(Forever(Continue), End);
    assert Exec(p, ExprStmt(Local("x")), env, fuel) == Next(env);
    assert Exec(p, Forever(Continue), env, fuel) == ExecLoop(p, Forever(Continue), env, fuel);
    assert Call(p, rest, env, fuel) == OutOfFuel;
  }

  lemma ProgramIsPlaced()
    ensures PlacedF(program) && !SaneF(program) && SizeF(program) == 4
  {
    assert !Sane(Forever(Continue)) && !SaneF(Seq(Forever(Continue), End));
    assert Placed(Forever(Continue), false) && PlacedF(Seq(Forever(Continue), End));
  }

  // ------------------------------------------------------- what is emitted for it

  lemma LoopInstructions(m: seq<Op>, i: int)
    requires HasS(m, i, Forever(Continue), NoLoop)
    ensures OpAt(m, i, Jump(Nowhere)) && OpAt(m, i + 1, Jump(i))
  {
    var y := Layout(None, Nil, Continue, i, i + 1, i + 1, i + 2, Back(i));
    assert LayoutOf(Forever(Continue), i) == y;
    LoopParts(m, i, Forever(Continue), NoLoop, y);
    JumpParts(m, i, Continue, Loop(i + 2, Back(i)));
  }

  lemma FirstInstructions(m: seq<Op>, i: int)
    requires HasS(m, i, ExprStmt(Local("x")), NoLoop)
    ensures OpAt(m, i, Load("x")) && OpAt(m, i + 1, Pop)
  {
    ValueParts(m, i, ExprStmt(Local("x")), NoLoop);
    LeafParts(m, i, Local("x"));
  }

  lemma Instructions(m: seq<Op>)
    requires HasF(m, 0, program)
    ensures m == [Load("x"), Pop, Jump(Nowhere), Jump(2)]
  {
    BodyParts(m, 0, program);
    TopParts(m, 0, ExprStmt(Local("x")), false);
    FirstInstructions(m, 0);
    LastInstructions(m, 2, Seq(Forever(Continue), End), Forever(Continue));
  }

  lemma LastInstructions(m: seq<Op>, i: int, rest: Stmts, loop: Stmt)
    requires loop == Forever(Continue) && rest == Seq(loop, End) && HasF(m, i, rest)
    ensures OpAt(m, i, Jump(Nowhere)) && OpAt(m, i + 1, Jump(i)) && |m| == i + 2
  {
    BodyParts(m, i, rest);
    TopParts(m, i, loop, true);
    LoopInstructions(m, i);
    BodyParts(m, i + 2, End);
  }

  /** Only Load reads as one Load. */
  lemma LoadBytes(names: seq<string>, values: seq<Value>, oc: byte, x: byte, y: byte, name: string)
    requires Parse(names, values, oc, x, y).Parsed? && Parse(names, values, oc, x, y).ops == [Load(name)]
    ensures oc == ocLoad && x < |names| && names[x] == name && Parse(names, values, oc, x, y).len == 2
  {
  }

  /** Load is never fused with Pop. */
  lemma LoadPop(names: seq<string>, values: seq<Value>, oc: byte, x: byte, y: byte, name: string)
    requires Parse(names, values, oc, x, y).Parsed?
    ensures Parse(names, values, oc, x, y).ops != [Load(name), Pop]
  {
  }

  lemma PopBytes(names: seq<string>, values: seq<Value>, oc: byte, x: byte, y: byte)
    requires Parse(names, values, oc, x, y).Parsed? && Parse(names, values, oc, x, y).ops == [Pop]
    ensures oc == ocPop && Parse(names, values, oc, x, y).len == 1
  {
  }

  lemma Int16Unique(hi: byte, lo: byte)
    ensures Hi(Int16(hi, lo)) == hi && Lo(Int16(hi, lo)) == lo
  {
  }

  /** The first two instructions. */
  lemma FirstBytes(g: Gen)
    requires Finished(g) && g.m == [Load("x"), Pop, Jump(Nowhere), Jump(2)]
    ensures g.pos[1] == 2 && g.pos[2] == 3 && |g.code| >= 3
    ensures g.code[0] == ocLoad && g.code[1] < |g.names| && g.names[g.code[1]] == "x" && g.code[2] == ocPop
    ensures Decode(FnOf(g), 0) == Parsed([Load("x")], 2) && Decode(FnOf(g), 2) == Parsed([Pop], 1)
  {
    assert Slot(g, 0) && Slot(g, 1);
    assert 0 !in g.fused && 2 !in g.fused;
    var c := g.code;
    var r := Parse(g.names, g.values, c[0], ByteAt(c, 1), ByteAt(c, 2));
    LoadPop(g.names, g.values, c[0], ByteAt(c, 1), ByteAt(c, 2), "x");
    assert 1 !in g.fused;
    LoadBytes(g.names, g.values, c[0], ByteAt(c, 1), ByteAt(c, 2), "x");
    PopBytes(g.names, g.values, c[2], ByteAt(c, 3), ByteAt(c, 4));
  }

  /** The two jumps: the continue, with its own address for an offset, and the one of the loop. */
  lemma JumpsOf(g: Gen)
    requires Finished(g) && g.m == [Load("x"), Pop, Jump(Nowhere), Jump(2)] && g.pos[2] == 3
    ensures |g.code| == 9 && Decode(FnOf(g), 3) == Parsed([Jump(9)], 3) && Decode(FnOf(g), 6) == Parsed([Jump(3)], 3)
  {
    JumpBytes(g, 2);
    JumpBytes(g, 3);
    assert Slot(g, 2) && Slot(g, 3);
  }

  lemma DecodedJump(f: Fn, ip: int, to: int)
    requires 0 <= ip && ip + 3 <= |f.code| && Decode(f, ip) == Parsed([Jump(to)], 3)
    ensures f.code[ip] == ocJump && f.code[ip + 1] == Hi(to - ip - 3) && f.code[ip + 2] == Lo(to - ip - 3)
  {
    var oc, x, y := f.code[ip], f.code[ip + 1], f.code[ip + 2];
    JumpParse(f.names, f.values, oc, x, y);
    Int16Unique(x, y);
  }

  /** All the bytes: they differ from one table of names to another only in the slot of x. */
  lemma EmittedBytes(f: Fn, pos: seq<int>)
    requires Emitted(f, pos, program)
    ensures |f.code| == 9 && f.code[1] < |f.names| && f.names[f.code[1]] == "x"
    ensures f.code == [ocLoad, f.code[1], ocPop, ocJump, 0, 3, ocJump, 255, 250]
    ensures Decode(f, 0) == Parsed([Load("x")], 2) && Decode(f, 2) == Parsed([Pop], 1) && Decode(f, 3) == Parsed([Jump(9)], 3)
  {
    var g :| FnOf(g) == f && g.pos == pos && Finished(g) && HasF(g.m, 0, program);
    ReadBack(g);
    DecodedJump(f, 3, 9);
    DecodedJump(f, 6, 3);
    AllBytes(f.code);
  }

  lemma ReadBack(g: Gen)
    requires Finished(g) && HasF(g.m, 0, program)
    ensures |g.code| == 9 && g.code[0] == ocLoad && g.code[1] < |g.names| && g.names[g.code[1]] == "x" && g.code[2] == ocPop
    ensures Decode(FnOf(g), 0) == Parsed([Load("x")], 2) && Decode(FnOf(g), 2) == Parsed([Pop], 1)
    ensures Decode(FnOf(g), 3) == Parsed([Jump(9)], 3) && Decode(FnOf(g), 6) == Parsed([Jump(3)], 3)
  {
    Instructions(g.m);
    FirstBytes(g);
    JumpsOf(g);
  }

  lemma AllBytes(code: seq<byte>)
    requires |code| == 9 && code[0] == ocLoad && code[2] == ocPop && code[3] == ocJump && code[6] == ocJump
    requires code[4] == Hi(3) && code[5] == Lo(3) && code[7] == Hi(-6) && code[8] == Lo(-6)
    ensures code == [ocLoad, code[1], ocPop, ocJump, 0, 3, ocJump, 255, 250]
  {
  }

  /** The bytes of a loop that never ends run off their end and return. */
  lemma CompiledEnds(p: Prims, f: Fn, v: Value)
    requires |f.code| == 9 && Decode(f, 0) == Parsed([Load("x")], 2) && Decode(f, 2) == Parsed([Pop], 1) && Decode(f, 3) == Parsed([Jump(9)], 3)
    ensures ByteRun(p, f, Start(map["x" := v]), 4) == Done(None, map["x" := v])
  {
    var env := map["x" := v];
    assert ByteStep(p, f, At(0, [], env)) == At(2, [] + [v], env);
    assert [v][..0] == [];
    assert ByteStep(p, f, At(2, [v], env)) == At(3, [], env);
    assert ByteStep(p, f, At(3, [], env)) == At(9, [], env);
    assert ByteStep(p, f, At(9, [], env)) == Done(None, env);
    assert ByteRun(p, f, At(9, [], env), 1) == Done(None, env);
    assert ByteRun(p, f, At(3, [], env), 2) == Done(None, env);
    assert ByteRun(p, f, At(2, [v], env), 3) == Done(None, env);
  }

  /** Whatever the compiler emits for the program does not mean what the program means. */
  lemma LeadingContinueGoesAstray(p: Prims, f: Fn, pos: seq<int>)
    requires Emitted(f, pos, program)
    ensures !LandF(f, pos, 0, program) && !Means(f, program)
  {
    var g :| FnOf(g) == f && g.pos == pos && Finished(g) && HasF(g.m, 0, program);
    ProgramIsPlaced();
    EveryContinueLands(g, 0, program);
    EmittedBytes(f, pos);
    EndsTooSoon(p, f);
  }

  lemma EndsTooSoon(p: Prims, f: Fn)
    requires |f.code| == 9 && Decode(f, 0) == Parsed([Load("x")], 2) && Decode(f, 2) == Parsed([Pop], 1) && Decode(f, 3) == Parsed([Jump(9)], 3)
    ensures !Means(f, program)
  {
    var env := map["x" := Int(0)];
    CompiledEnds(p, f, Int(0));
    ProgramNeverEnds(p, env, 9);
    assert !Faithful(p, f, program, env, 4);
  }

  /** The compiler accepts the program and emits those bytes. */
  method CompileProgram(ghost p: Prims) returns (f: Fn)
    ensures |f.code| == 9 && f.code == [ocLoad, f.code[1], ocPop, ocJump, 0, 3, ocJump, 255, 250]
    ensures !Means(f, program)
  {
    var r;
    ghost var pos;
    ProgramIsPlaced();
    r, f, pos := Compile([], program);
    EmittedBytes(f, pos);
    LeadingContinueGoesAstray(p, f, pos);
  }
}
