/**
  The compiled bytes mean what the program means.
  */
module Compiler {
  import opened Ast
  import opened Ops
  import opened Bytes
  import opened Encoding
  import opened LayoutStmt
  import opened Build
  import opened Landing
  import opened SimExpr
  import opened SimStmt
  import opened ByteSim
  import opened Chains
  import opened Codegen
  import opened Seal

  predicate Ended(o: Outcome) { o.Returned? || o.Raised? }

  /** What the machine ends with when the program ends with o. */
  function Final(o: Outcome): State
    requires Ended(o)
  {
    match o case Returned(v, env) => Done(v, env) case Raised(x, env) => Panic(x, env)
  }

  /** The state of a machine about to run a function whose arguments are in env. */
  function Start(env: Env): State { At(0, [], env) }

  /** If the program ends, the bytes end the same way, with the same locals. */
  ghost predicate Follows(p: Prims, f: Fn, body: Stmts, env: Env, fuel: nat) {
    Ended(Call(p, body, env, fuel)) ==> exists n: nat :: ByteRun(p, f, Start(env), n) == Final(Call(p, body, env, fuel))
  }

  /** If the bytes end after n opcodes, the program ends, and the same way. */
  ghost predicate Faithful(p: Prims, f: Fn, body: Stmts, env: Env, n: nat) {
    var s := ByteRun(p, f, Start(env), n);
    !s.At? ==> Ended(Call(p, body, env, 2 * n + 1)) && s == Final(Call(p, body, env, 2 * n + 1))
  }

  ghost predicate Means(f: Fn, body: Stmts) {
    (forall p, env, fuel: nat :: Follows(p, f, body, env, fuel))
    && (forall p, env, n: nat :: Faithful(p, f, body, env, n))
  }

  // ------------------------------------------------------------------- runs

  lemma {:induction false} TraceRun(p: Prims, m: seq<Op>, tr: seq<State>, j: nat)
    requires Trace(p, m, tr) && j < |tr|
    ensures Run(p, m, tr[0], j) == tr[j]
    decreases j
  {
    if j > 0 {
      TraceRun(p, m, tr, j - 1);
      assert Linked(p, m, tr, j - 1);
      RunThen(p, m, tr[0], j - 1, 1);
      assert Run(p, m, tr[j - 1], 1) == Run(p, m, Step(p, m, tr[j - 1]), 0);
    }
  }

  lemma ReachesRun(p: Prims, m: seq<Op>, s: State, n: nat, t: State) returns (k: nat)
    requires Reaches(p, m, s, n, t)
    ensures k >= n && Run(p, m, s, k) == t
  {
    assert Open(0);
    assert Path(p, m, s, n, t);
    var tr: seq<State> :| Trace(p, m, tr) && |tr| > n && tr[0] == s && tr[|tr| - 1] == t;
    k := |tr| - 1;
    TraceRun(p, m, tr, k);
  }

  lemma {:induction false} RunHalted(p: Prims, m: seq<Op>, s: State, n: nat)
    requires !s.At?
    ensures Run(p, m, s, n) == s
    decreases n
  {
    if n > 0 { RunHalted(p, m, s, n - 1); }
  }

  /** A run ends in one way only. */
  lemma RunLater(p: Prims, m: seq<Op>, s: State, a: nat, b: nat)
    requires a <= b && !Run(p, m, s, a).At?
    ensures Run(p, m, s, b) == Run(p, m, s, a)
  {
    RunThen(p, m, s, a, b - a);
    RunHalted(p, m, Run(p, m, s, a), b - a);
  }

  // ------------------------------------------------------------------ theorem

  /** The bytes of g are the compiled form of body. */
  ghost predicate Compiles(g: Gen, body: Stmts) {
    Complete(g) && HasF(g.m, 0, body) && PlacedF(body)
  }

  lemma StartWhole(g: Gen, env: Env)
    requires Complete(g)
    ensures Whole(g, Start(env)) && Situated(g, Start(env)) == Start(env)
  {
  }

  lemma BytesFollow(p: Prims, g: Gen, body: Stmts, env: Env, fuel: nat)
    requires Compiles(g, body)
    ensures Follows(p, FnOf(g), body, env, fuel)
  {
    var o := Call(p, body, env, fuel);
    if Ended(o) {
      SimF(p, g.m, body, 0, env, fuel);
      EndsOpen(p, g.m, Start(env), |g.m|, NoLoop, [], o, fuel);
      var n := ReachesRun(p, g.m, Start(env), 0, Final(o));
      StartWhole(g, env);
      var k := RunRefines(p, g, Start(env), n);
      RunLater(p, g.m, Start(env), n, k);
      assert ByteRun(p, FnOf(g), Start(env), n) == Final(o);
    }
  }

  lemma BytesFaithful(p: Prims, g: Gen, body: Stmts, env: Env, n: nat)
    requires Compiles(g, body)
    ensures Faithful(p, FnOf(g), body, env, n)
  {
    var s, fuel := Start(env), 2 * n + 1;
    StartWhole(g, env);
    var k := RunRefines(p, g, s, n);
    if !Run(p, g.m, s, k).At? {
      SimF(p, g.m, body, 0, env, fuel);
      var o := Call(p, body, env, fuel);
      EndsOpen(p, g.m, s, |g.m|, NoLoop, [], o, fuel);
      if o.OutOfFuel? {
        var t: State :| t.At? && Reaches(p, g.m, s, fuel, t);
        var j := ReachesRun(p, g.m, s, fuel, t);
        RunLater(p, g.m, s, k, j);
        assert false;
      }
      var j := ReachesRun(p, g.m, s, 0, Final(o));
      if j <= k { RunLater(p, g.m, s, j, k); } else { RunLater(p, g.m, s, k, j); }
    }
  }

  /** Compiled code means what the source means. */
  lemma CompiledMeans(g: Gen, body: Stmts)
    requires Compiles(g, body)
    ensures Means(FnOf(g), body)
  {
    forall p, env, fuel: nat ensures Follows(p, FnOf(g), body, env, fuel) { BytesFollow(p, g, body, env, fuel); }
    forall p, env, n: nat ensures Faithful(p, FnOf(g), body, env, n) { BytesFaithful(p, g, body, env, n); }
  }

  /** The bytes of f, whose instructions start at pos, have the layout of body. */
  ghost predicate Emitted(f: Fn, pos: seq<int>, body: Stmts) {
    exists g :: FnOf(g) == f && g.pos == pos && Finished(g) && HasF(g.m, 0, body)
  }

  function SizeF(body: Stmts): nat {
    match body case End => 0 case Seq(s, rest) => SizeTop(s, rest.End?) + SizeF(rest)
  }

  lemma {:induction false} LengthF(m: seq<Op>, i: int, body: Stmts)
    requires HasF(m, i, body)
    ensures |m| == i + SizeF(body)
    decreases body
  {
    BodyParts(m, i, body);
    if body.Seq? { LengthF(m, i + SizeTop(body.first, body.rest.End?), body.rest); }
  }

  /** A table is full, a jump too long, or a concatenation too wide. */
  ghost predicate AtLimit(f: Fn, body: Stmts) {
    |f.names| > 255 || |f.values| > 255 || |f.code| > 32764 || exists m :: HasF(m, 0, body) && JoinsMany(m)
  }

  /**
    Compiles a function.  It fails only for a break or continue outside a loop, or at a
    size limit, which takes more than 255 parameters and instructions.  Every continue lands
    if and only if no forever loop starts with one, and then the bytes mean what the body means.
    */
  method Compile(params: seq<string>, body: Stmts) returns (r: Compiled, f: Fn, ghost pos: seq<int>)
    ensures r.Fine? ==> PlacedF(body) && Emitted(f, pos, body)
    ensures r.Fine? ==> (LandF(f, pos, 0, body) <==> SaneF(body))
    ensures r.Fine? && SaneF(body) ==> Means(f, body)
    ensures r.Fine? ==> params <= f.names && (Distinct(params) ==> Distinct(f.names))
    ensures r.Refused? ==> !PlacedF(body) || (AtLimit(f, body) && |params| + SizeF(body) > 255)
  {
    ghost var m := BuildF([], body);
    LengthF(m, 0, body);
    var cg := new Cgen(params, m);
    ghost var a := cg.g;
    r := cg.Function(body);
    f := Fn(cg.code, cg.names, cg.values);
    pos := cg.g.pos;
    if r.Fine? {
      IntactOpen(m, cg.g);
      WaitsNone(a, cg.g);
      WaitsNames(a, cg.g, {});
      assert cg.g.m == m;
      EmittedLands(cg.g, body);
      if SaneF(body) {
        NoneStray();
        CompiledMeans(cg.g, body);
      }
    }
  }

  lemma NoneStray()
    ensures Straight([])
  {
  }

  lemma EmittedLands(g: Gen, body: Stmts)
    requires Finished(g) && HasF(g.m, 0, body) && PlacedF(body)
    ensures Emitted(FnOf(g), g.pos, body) && (LandF(FnOf(g), g.pos, 0, body) <==> SaneF(body))
  {
    EveryContinueLands(g, 0, body);
  }
}
