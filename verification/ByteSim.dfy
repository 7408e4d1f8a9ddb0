/**
  Running the bytes is running the instructions they spell, one or two at a time:
  fused opcodes change nothing.
  */
module ByteSim {
  import opened Ast
  import opened Ops
  import opened Bytes
  import opened Encoding
  import opened LayoutExpr
  import opened LayoutStmt

  /** No jump is waiting for its label, and none goes astray. */
  ghost predicate Complete(g: Gen) { Finished(g) && Straight(g.m) }

  /** The same state, with the instruction's number turned into its address. */
  function Situated(g: Gen, s: State): State {
    if s.At? && 0 <= s.pc < |g.pos| then s.(pc := g.pos[s.pc]) else s
  }

  /** At the start of a whole opcode, or finished. */
  ghost predicate Whole(g: Gen, s: State) {
    s.At? ==> 0 <= s.pc <= |g.m| && s.pc !in g.fused
  }

  /** An instruction does the same wherever it stands. */
  lemma DoMoved(p: Prims, g: Gen, op: Op, k: int, next: int, to: int, stack: seq<Value>, env: Env)
    requires Complete(g) && Needs(op) <= |stack| && 0 <= k < |g.m| && next == g.pos[k + 1]
    requires IsJump(op) ==> 0 <= op.to <= |g.m| && to == g.pos[op.to]
    ensures Needs(Aim(op, to)) == Needs(op)
    ensures Do(p, Aim(op, to), next - 1, stack, env) == Situated(g, Do(p, op, k, stack, env))
  {
    if IsJump(op) { JumpMoved(p, g, op, k, next, to, stack, env); }
  }

  lemma JumpMoved(p: Prims, g: Gen, op: Op, k: int, next: int, to: int, stack: seq<Value>, env: Env)
    requires Complete(g) && Needs(op) <= |stack| && 0 <= k < |g.m| && next == g.pos[k + 1]
    requires IsJump(op) && 0 <= op.to <= |g.m| && to == g.pos[op.to]
    ensures Needs(Aim(op, to)) == Needs(op)
    ensures Do(p, Aim(op, to), next - 1, stack, env) == Situated(g, Do(p, op, k, stack, env))
  {
  }

  /** Where an instruction goes next. */
  lemma DoGoes(p: Prims, op: Op, k: int, stack: seq<Value>, env: Env)
    requires Needs(op) <= |stack|
    ensures var s := Do(p, op, k, stack, env);
            s.At? ==> s.pc == k + 1 || (IsJump(op) && s.pc == op.to)
  {
  }

  /** One opcode is one instruction, or two that were fused. */
  lemma StepRefines(p: Prims, g: Gen, s: State) returns (k: nat)
    requires Complete(g) && Whole(g, s)
    ensures 1 <= k <= 2 && Whole(g, Run(p, g.m, s, k))
    ensures ByteStep(p, FnOf(g), Situated(g, s)) == Situated(g, Run(p, g.m, s, k))
  {
    k := 1;
    assert Run(p, g.m, s, 1) == Run(p, g.m, Step(p, g.m, s), 0);
    if s.At? && s.pc < |g.m| {
      assert Slot(g, s.pc);
      if s.pc + 1 in g.fused {
        FusedRefines(p, g, s);
        k := 2;
        assert Run(p, g.m, s, 2) == Run(p, g.m, Step(p, g.m, s), 1) == Run(p, g.m, Step(p, g.m, Step(p, g.m, s)), 0);
      } else {
        PlainRefines(p, g, s);
      }
    }
  }

  lemma PlainRefines(p: Prims, g: Gen, s: State)
    requires Complete(g) && Whole(g, s) && s.At? && s.pc < |g.m| && s.pc + 1 !in g.fused
    ensures Whole(g, Step(p, g.m, s))
    ensures ByteStep(p, FnOf(g), Situated(g, s)) == Situated(g, Step(p, g.m, s))
  {
    var k, op := s.pc, g.m[s.pc];
    assert Slot(g, k);
    var to := Goes(g, k);
    if IsJump(op) { StraightMarks(g, k); }
    AimSelf(op, to);
    NeedsSame(op, to);
    if Needs(op) <= |s.stack| {
      DoMoved(p, g, op, k, g.pos[k + 1], to, s.stack, s.env);
      DoGoes(p, op, k, s.stack, s.env);
    }
  }

  lemma StraightMarks(g: Gen, k: int)
    requires Complete(g) && 0 <= k < |g.m| && IsJump(g.m[k])
    ensures g.m[k].to in g.marks
  {
    StraightAt(g.m, k, g.m[k]);
  }

  lemma NeedsSame(op: Op, to: int)
    ensures Needs(Aim(op, to)) == Needs(op)
  {
  }

  lemma FusedRefines(p: Prims, g: Gen, s: State)
    requires Complete(g) && Whole(g, s) && s.At? && s.pc < |g.m| && s.pc + 1 in g.fused
    ensures Whole(g, Step(p, g.m, Step(p, g.m, s)))
    ensures ByteStep(p, FnOf(g), Situated(g, s)) == Situated(g, Step(p, g.m, Step(p, g.m, s)))
  {
    var k := s.pc;
    var a, b := g.m[k], g.m[k + 1];
    assert Slot(g, k);
    assert k + 2 in g.fused ==> Half(g, k + 2);
    var s1 := Step(p, g.m, s);
    if Needs(a) <= |s.stack| {
      DoPlain(p, a, k, g.pos[k + 2], s.stack, s.env);
      DoGoes(p, a, k, s.stack, s.env);
      if s1.At? && Needs(b) <= |s1.stack| {
        DoPlain(p, b, k + 1, g.pos[k + 2], s1.stack, s1.env);
        DoGoes(p, b, k + 1, s1.stack, s1.env);
      }
    }
  }

  /** An instruction that is not a jump only moves on. */
  lemma DoPlain(p: Prims, op: Op, k: int, next: int, stack: seq<Value>, env: Env)
    requires !IsJump(op) && Needs(op) <= |stack|
    ensures var s := Do(p, op, k, stack, env);
            Do(p, op, next - 1, stack, env) == if s.At? then s.(pc := next) else s
  {
  }

  /** The bytes run as the instructions do, one or two of them at a time. */
  lemma {:induction false} RunRefines(p: Prims, g: Gen, s: State, n: nat) returns (k: nat)
    requires Complete(g) && Whole(g, s)
    ensures n <= k <= 2 * n
    ensures ByteRun(p, FnOf(g), Situated(g, s), n) == Situated(g, Run(p, g.m, s, k))
    decreases n
  {
    k := 0;
    if n > 0 {
      var j := StepRefines(p, g, s);
      var s1 := Run(p, g.m, s, j);
      var k1 := RunRefines(p, g, s1, n - 1);
      RunThen(p, g.m, s, j, k1);
      k := j + k1;
    }
  }

  lemma {:induction false} RunThen(p: Prims, m: seq<Op>, s: State, a: nat, b: nat)
    ensures Run(p, m, s, a + b) == Run(p, m, Run(p, m, s, a), b)
    decreases a
  {
    if a > 0 { RunThen(p, m, Step(p, m, s), a - 1, b); }
  }
}
