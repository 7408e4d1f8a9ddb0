/**
  Compiling a function and interpreting it: the two ends of the system together.
  */
module Execution {
  import opened Ast
  import opened Ops
  import opened Bytes
  import opened Encoding
  import opened LayoutStmt
  import opened Chains
  import opened Compiler
  import opened Interp

  /** The arguments of a call by name. */
  function Bound(params: seq<string>, args: seq<Value>): Env
    requires |args| <= |params| && Distinct(params)
  {
    map i | 0 <= i < |args| :: params[i] := args[i]
  }

  /** How the interpreter reports an outcome. */
  function EndingOf(o: Outcome): Ending
    requires Ended(o)
  {
    match o case Returned(v, _) => Finished(v) case Raised(x, _) => Panicked(x)
  }

  lemma FrameOfArgs(names: seq<string>, params: seq<string>, args: seq<Value>, locals: seq<Option<Value>>)
    requires Distinct(names) && Distinct(params) && params <= names && |args| <= |params| && |locals| == |names|
    requires forall i :: 0 <= i < |locals| ==> locals[i] == if i < |args| then Some(args[i]) else None
    ensures EnvOf(names, locals) == Bound(params, args)
  {
    var a, b := EnvOf(names, locals), Bound(params, args);
    forall x | x in a ensures x in b && b[x] == a[x] {
      var i :| 0 <= i < |names| && locals[i].Some? && names[i] == x;
      EnvAt(names, locals, i);
      BoundAt(params, args, i);
    }
    forall x | x in b ensures x in a {
      var i :| 0 <= i < |args| && params[i] == x;
      EnvAt(names, locals, i);
    }
    SameMap(a, b);
  }

  lemma SameMap<K(!new), V(!new)>(a: map<K, V>, b: map<K, V>)
    requires (forall x :: x in a ==> x in b && b[x] == a[x]) && (forall x :: x in b ==> x in a)
    ensures a == b
  {
  }

  lemma BoundAt(params: seq<string>, args: seq<Value>, i: int)
    requires |args| <= |params| && Distinct(params) && 0 <= i < |args|
    ensures params[i] in Bound(params, args) && Bound(params, args)[params[i]] == args[i]
  {
  }

  lemma StateIsFinal(e: Ending, ip: int, stack: seq<Value>, env: Env, o: Outcome)
    requires !e.Running? && Ended(o) && StateOf(e, ip, stack, env) == Final(o)
    ensures e == EndingOf(o) && env == o.env
  {
  }

  /**
    Compiles a function and interprets up to n opcodes of it.  If the function ends within
    them, it ends as its source does, with the same value or panic and the same locals; and
    for a source that ends there is an n that is enough.
    */
  method Execute(p: Prims, params: seq<string>, body: Stmts, args: seq<Value>, n: nat)
    returns (r: Compiled, f: Fn, e: Ending, ghost vars: Env)
    requires Distinct(params) && |args| <= |params|
    ensures r.Refused? ==> !PlacedF(body) || |params| + SizeF(body) > 255
    ensures r.Fine? && SaneF(body) && !e.Running? ==>
      var o := Call(p, body, Bound(params, args), 2 * n + 1);
      Ended(o) && e == EndingOf(o) && vars == o.env
    ensures r.Fine? && SaneF(body) ==> forall fuel: nat :: Follows(p, f, body, Bound(params, args), fuel)
    ensures r.Fine? && e.Running? ==> ByteRun(p, f, Start(Bound(params, args)), n).At?
  {
    ghost var pos;
    e, vars := Running, map[];
    r, f, pos := Compile(params, body);
    if r.Refused? { return; }
    var frame := new Frame(f, args);
    FrameOfArgs(f.names, params, args, frame.locals);
    e := frame.Interpret(p, n);
    vars := frame.Vars();
    ghost var env := Bound(params, args);
    if SaneF(body) {
      assert Means(f, body);
      assert Faithful(p, f, body, env, n);
      if !e.Running? { StateIsFinal(e, frame.ip, frame.stack, vars, Call(p, body, env, 2 * n + 1)); }
    }
  }
}
