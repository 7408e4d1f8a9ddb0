/**
  The interpreter: a fetch and execute loop over the bytes, with a value stack and
  the locals in numbered slots.  Each trip around the loop does what ByteStep says.
  */
module Interp {
  import opened Ast
  import opened Ops
  import opened Bytes
  import opened Encoding
  import opened Seal

  // -------------------------------------------------------- slots and names

  /** The locals by name. */
  function EnvOf(names: seq<string>, locals: seq<Option<Value>>): Env
    requires |locals| == |names| && Distinct(names)
  {
    map i | 0 <= i < |names| && locals[i].Some? :: names[i] := locals[i].value
  }

  lemma EnvAt(names: seq<string>, locals: seq<Option<Value>>, i: int)
    requires |locals| == |names| && Distinct(names) && 0 <= i < |names|
    ensures names[i] in EnvOf(names, locals) <==> locals[i].Some?
    ensures locals[i].Some? ==> EnvOf(names, locals)[names[i]] == locals[i].value
  {
  }

  lemma EnvStore(names: seq<string>, locals: seq<Option<Value>>, i: int, v: Value)
    requires |locals| == |names| && Distinct(names) && 0 <= i < |names|
    ensures EnvOf(names, locals[i := Some(v)]) == EnvOf(names, locals)[names[i] := v]
  {
    var a, b := EnvOf(names, locals[i := Some(v)]), EnvOf(names, locals)[names[i] := v];
    forall x | x in a ensures x in b && b[x] == a[x] {
      var j :| 0 <= j < |names| && locals[i := Some(v)][j].Some? && names[j] == x;
    }
    forall x | x in b ensures x in a {
      if x != names[i] { var j :| 0 <= j < |names| && locals[j].Some? && names[j] == x; assert locals[i := Some(v)][j].Some?; }
      else { assert locals[i := Some(v)][i].Some?; }
    }
  }

  /** How a trip around the loop ends. */
  datatype Ending = Running | Finished(result: Option<Value>) | Panicked(error: Error) | Broken

  function StateOf(e: Ending, ip: int, stack: seq<Value>, env: Env): State {
    match e
    case Running => At(ip, stack, env)
    case Finished(v) => Done(v, env)
    case Panicked(x) => Panic(x, env)
    case Broken => Stuck
  }

  /** One instruction, or the two of a fused opcode. */
  function DoOps(p: Prims, ops: seq<Op>, next: int, stack: seq<Value>, env: Env): State
    requires 1 <= |ops| <= 2
  {
    var s := DoOne(p, ops[0], next, stack, env);
    if |ops| == 1 || !s.At? then s else DoOne(p, ops[1], next, s.stack, s.env)
  }

  class Frame {
    const fn: Fn
    var ip: int
    var stack: seq<Value>
    var locals: seq<Option<Value>>

    ghost predicate Valid()
      reads this
    {
      |locals| == |fn.names| && Distinct(fn.names)
    }

    ghost function Vars(): Env
      requires Valid()
      reads this
    {
      EnvOf(fn.names, locals)
    }

    /** A frame about to run fn: the arguments are the first locals, the others have no value. */
    constructor (f: Fn, args: seq<Value>)
      requires Distinct(f.names) && |args| <= |f.names|
      ensures Valid() && fn == f && ip == 0 && stack == [] && |locals| == |f.names|
      ensures forall i :: 0 <= i < |locals| ==> locals[i] == if i < |args| then Some(args[i]) else None
    {
      fn, ip, stack := f, 0, [];
      locals := seq(|f.names|, i requires 0 <= i < |f.names| => if i < |args| then Some(args[i]) else None);
    }

    /** An instruction of one byte. */
    method Bare1(p: Prims, oc: byte) returns (e: Ending)
      requires Valid() && Bare(oc).Some?
      modifies this`ip, this`stack
      ensures Valid() && StateOf(e, ip, stack, Vars()) == DoOne(p, Bare(oc).value, old(ip) + 1, old(stack), Vars())
    {
      ip := ip + 1;
      e := Running;
      if oc == ocReturn {
        return Finished(if stack == [] then None else Some(stack[|stack| - 1]));
      } else if oc == ocReturnNil {
        return Finished(None);
      } else if oc == ocTrue {
        stack := stack + [Bool(true)];
      } else if oc == ocFalse {
        stack := stack + [Bool(false)];
      } else if oc == ocZero {
        stack := stack + [Int(0)];
      } else if oc == ocOne {
        stack := stack + [Int(1)];
      } else if oc == ocMinusOne {
        stack := stack + [Int(-1)];
      } else if oc == ocEmptyStr {
        stack := stack + [Str("")];
      } else if |stack| < 1 {
        e := Broken;
      } else if oc == ocPop {
        stack := Rest(stack);
      } else if oc == ocBool {
        if !Top(stack).Bool? { e := Panicked(NeedsBool); }
      } else if oc == ocThrow {
        e := Panicked(Thrown(Top(stack)));
      } else {
        e := Operator(p, oc);
      }
    }

    /** An operator on the top one or two values. */
    method Operator(p: Prims, oc: byte) returns (e: Ending)
      requires Valid() && 23 <= oc <= 46 && oc != 34 && |stack| >= 1
      modifies this`stack
      ensures Valid() && StateOf(e, ip, stack, Vars()) == DoOne(p, Bare(oc).value, ip, old(stack), Vars())
    {
      e := Running;
      var y := Top(stack);
      if oc >= 43 {
        match p.unary(if oc == 43 then BitNot else if oc == 44 then Not else if oc == 45 then Plus else Minus, y) {
          case Gives(v) => stack := Rest(stack) + [v];
          case Raises(x) => e := Panicked(x);
        }
      } else if |stack| < 2 {
        e := Broken;
      } else {
        var x := Top(Rest(stack));
        if oc <= 30 {
          match p.Compare(CompareOf(oc), x, y) {
            case Gives(b) => stack := Rest(Rest(stack)) + [Bool(b)];
            case Raises(err) => e := Panicked(err);
          }
        } else {
          match p.arith(ArithOf(oc), x, y) {
            case Gives(v) => stack := Rest(Rest(stack)) + [v];
            case Raises(err) => e := Panicked(err);
          }
        }
      }
    }

    /** The value of a local goes on the stack. */
    method LoadSlot(i: int, ghost p: Prims) returns (e: Ending)
      requires Valid() && 0 <= i < |fn.names|
      modifies this`stack
      ensures Valid() && StateOf(e, ip, stack, Vars()) == Do(p, Load(fn.names[i]), ip - 1, old(stack), Vars())
    {
      EnvAt(fn.names, locals, i);
      if locals[i].None? {
        return Panicked(Uninitialized(fn.names[i]));
      }
      stack := stack + [locals[i].value];
      e := Running;
    }

    /** The top value goes into a local. */
    method StoreSlot(i: int)
      requires Valid() && 0 <= i < |fn.names| && |stack| >= 1
      modifies this`locals
      ensures Valid() && Vars() == old(Vars())[fn.names[i] := Top(stack)]
    {
      EnvStore(fn.names, locals, i, Top(stack));
      locals := locals[i := Some(Top(stack))];
    }

    /** The top n values are replaced by their concatenation. */
    method Concatenate(p: Prims, n: nat) returns (e: Ending)
      requires Valid()
      modifies this`stack
      ensures Valid() && StateOf(e, ip, stack, Vars()) == DoOne(p, CatN(n), ip, old(stack), Vars())
    {
      if |stack| < n { return Broken; }
      match p.cat(stack[|stack| - n..]) {
        case Gives(v) => stack := stack[..|stack| - n] + [v]; e := Running;
        case Raises(x) => e := Panicked(x);
      }
    }

    /** An opcode with a one byte operand x. */
    method Short1(p: Prims, oc: byte, x: byte) returns (e: Ending)
      requires Valid() && Short(oc)
      modifies this
      ensures Valid() && StateOf(e, ip, stack, Vars()) == (var d := ParseShort(fn.names, fn.values, oc, x);
              if d.Bad? then Stuck else DoOps(p, d.ops, old(ip) + 2, old(stack), old(Vars())))
    {
      ip := ip + 2;
      if oc == ocValue {
        if x >= |fn.values| { return Broken; }
        stack := stack + [fn.values[x]];
        return Running;
      }
      if oc == ocCatN {
        e := Concatenate(p, x);
        return;
      }
      if x >= |fn.names| { return Broken; }
      if oc == ocLoad {
        e := LoadSlot(x, p);
      } else if |stack| < 1 {
        e := Broken;
      } else if oc == ocPopLoad {
        stack := Rest(stack);
        e := LoadSlot(x, p);
      } else {
        StoreSlot(x);
        if oc == ocStorePop { stack := Rest(stack); }
        e := Running;
      }
    }

    /** LoadStore: x op= top, leaving the new value or the old one. */
    method Update(p: Prims, x: byte, y: byte) returns (e: Ending)
      requires Valid() && x < |fn.names| && y / 2 <= 10
      modifies this`stack, this`locals
      ensures Valid() && StateOf(e, ip, stack, Vars())
           == DoOne(p, LoadStore(fn.names[x], UpdateOf(y / 2), y % 2 == 1), ip, old(stack), old(Vars()))
    {
      if |stack| < 1 { return Broken; }
      EnvAt(fn.names, locals, x);
      if locals[x].None? { return Panicked(Uninitialized(fn.names[x])); }
      var v := locals[x].value;
      match p.arith(UpdateOf(y / 2), v, Top(stack)) {
        case Raises(err) => e := Panicked(err);
        case Gives(w) =>
          EnvStore(fn.names, locals, x, w);
          locals := locals[x := Some(w)];
          stack := Rest(stack) + [if y % 2 == 1 then v else w];
          e := Running;
      }
    }

    /** LoadLoad and LoadValue. */
    method LoadTwo(p: Prims, oc: byte, x: byte, y: byte) returns (e: Ending)
      requires Valid() && (oc == ocLoadLoad || oc == ocLoadValue) && x < |fn.names|
      requires if oc == ocLoadLoad then y < |fn.names| else y < |fn.values|
      modifies this`stack
      ensures Valid() && StateOf(e, ip, stack, Vars())
           == DoOps(p, [Load(fn.names[x]), if oc == ocLoadLoad then Load(fn.names[y]) else Push(fn.values[y])], ip, old(stack), Vars())
    {
      e := LoadSlot(x, p);
      if e.Running? {
        if oc == ocLoadLoad {
          e := LoadSlot(y, p);
        } else {
          stack := stack + [fn.values[y]];
        }
      }
    }

    /** A jump by d bytes, taken or not. */
    /** A jump by d from after the instruction. */
    method Jumps1(p: Prims, oc: byte, d: int) returns (e: Ending)
      requires Valid() && JumpTo(oc, 0).Some?
      modifies this`ip, this`stack
      ensures Valid() && Jumped(p, oc, old(ip) + 3 + d, old(ip) + 3, old(stack), Vars(), StateOf(e, ip, stack, Vars()))
    {
      ip := ip + 3;
      if oc == ocJump {
        ip := ip + d;
        e := Running;
        JumpedAlways(p, ip, old(ip) + 3, stack, Vars());
      } else {
        e := TestedJump(p, oc, d);
      }
    }

    /** A jump that depends on the top of the stack. */
    method TestedJump(p: Prims, oc: byte, d: int) returns (e: Ending)
      requires Valid() && JumpTo(oc, 0).Some? && oc != ocJump
      modifies this`ip, this`stack
      ensures Valid() && Jumped(p, oc, old(ip) + d, old(ip), old(stack), Vars(), StateOf(e, ip, stack, Vars()))
    {
      if |stack| < 1 {
        e := Broken;
        JumpedNowhere(p, oc, ip + d, ip, stack, Vars());
      } else if oc == ocIn || oc == ocJumpIs || oc == ocJumpIsnt {
        e := EqualJump(p, oc, d);
      } else {
        TestsBool(oc);
        e := BoolJump(p, oc, d);
      }
    }

    /** JumpTrue, JumpFalse and QMark pop the boolean; And and Or pop it only when they go on. */
    method BoolJump(ghost p: Prims, oc: byte, d: int) returns (e: Ending)
      requires Valid() && |stack| >= 1
      requires oc == ocJumpTrue || oc == ocJumpFalse || oc == ocQMark || oc == ocAnd || oc == ocOr
      modifies this`ip, this`stack
      ensures Valid() && Jumped(p, oc, old(ip) + d, old(ip), old(stack), Vars(), StateOf(e, ip, stack, Vars()))
    {
      var v := Top(stack);
      if !v.Bool? { return Panicked(NeedsBool); }
      var taken := v.b == (oc == ocJumpTrue || oc == ocOr);
      if !taken || (oc != ocAnd && oc != ocOr) { stack := Rest(stack); }
      if taken { ip := ip + d; }
      e := Running;
    }

    /** In, JumpIs and JumpIsnt compare the top value with the one below. */
    method EqualJump(p: Prims, oc: byte, d: int) returns (e: Ending)
      requires Valid() && |stack| >= 1 && (oc == ocIn || oc == ocJumpIs || oc == ocJumpIsnt)
      modifies this`ip, this`stack
      ensures Valid() && Jumped(p, oc, old(ip) + d, old(ip), old(stack), Vars(), StateOf(e, ip, stack, Vars()))
    {
      if |stack| < 2 { return Broken; }
      var y, x := Top(stack), Top(Rest(stack));
      var same := p.equal(x, y);
      stack := Rest(stack);
      if same { stack := Rest(stack); }
      if same && oc == ocIn { stack := stack + [Bool(true)]; }
      if same == (oc != ocJumpIsnt) { ip := ip + d; }
      e := Running;
    }

    /** An opcode with two operand bytes. */
    method Wide1(p: Prims, oc: byte, x: byte, y: byte) returns (e: Ending)
      requires Valid() && Wide(oc)
      modifies this
      ensures Valid() && StateOf(e, ip, stack, Vars()) == WideState(p, fn, oc, x, y, old(ip), old(stack), old(Vars()))
    {
      if JumpTo(oc, 0).Some? {
        WideJump(p, fn, oc, x, y, ip, stack, Vars());
        e := Jumps1(p, oc, Int16(x, y));
        assert Look(0);
      } else {
        e := Plain3(p, oc, x, y);
      }
    }

    /** A three byte opcode that is not a jump. */
    method Plain3(p: Prims, oc: byte, x: byte, y: byte) returns (e: Ending)
      requires Valid() && Wide(oc) && JumpTo(oc, 0).None?
      modifies this
      ensures Valid() && StateOf(e, ip, stack, Vars()) == WideState(p, fn, oc, x, y, old(ip), old(stack), old(Vars()))
    {
      ip := ip + 3;
      if oc == ocInt {
        stack := stack + [Int(Int16(x, y))];
        e := Running;
      } else if x >= |fn.names| {
        e := Broken;
      } else if oc == ocLoadStore {
        if y / 2 > 10 { return Broken; }
        e := Update(p, x, y);
      } else if if oc == ocLoadLoad then y >= |fn.names| else y >= |fn.values| {
        e := Broken;
      } else {
        e := LoadTwo(p, oc, x, y);
      }
    }

    /** One trip around the loop. */
    method Trip(p: Prims) returns (e: Ending)
      requires Valid()
      modifies this
      ensures Valid() && StateOf(e, ip, stack, Vars()) == ByteStep(p, fn, At(old(ip), old(stack), old(Vars())))
    {
      var code := fn.code;
      if ip < 0 || ip > |code| { return Broken; }
      if ip == |code| {
        return Finished(if stack == [] then None else Some(Top(stack)));
      }
      if Bare(code[ip]).Some? {
        TripBare(p, fn, ip, stack, Vars());
        e := Bare1(p, code[ip]);
      } else if Short(code[ip]) {
        e := ShortTrip(p);
      } else if Wide(code[ip]) {
        e := WideTrip(p);
      } else {
        e := Broken;
      }
    }

    method ShortTrip(p: Prims) returns (e: Ending)
      requires Valid() && 0 <= ip < |fn.code| && Bare(fn.code[ip]).None? && Short(fn.code[ip])
      modifies this
      ensures Valid() && StateOf(e, ip, stack, Vars()) == ByteStep(p, fn, At(old(ip), old(stack), old(Vars())))
    {
      TripShort(p, fn, ip, stack, Vars());
      if ip + 2 > |fn.code| { return Broken; }
      e := Short1(p, fn.code[ip], fn.code[ip + 1]);
    }

    method WideTrip(p: Prims) returns (e: Ending)
      requires Valid() && 0 <= ip < |fn.code| && Bare(fn.code[ip]).None? && !Short(fn.code[ip]) && Wide(fn.code[ip])
      modifies this
      ensures Valid() && StateOf(e, ip, stack, Vars()) == ByteStep(p, fn, At(old(ip), old(stack), old(Vars())))
    {
      TripWide(p, fn, ip, stack, Vars());
      if ip + 3 > |fn.code| { return Broken; }
      e := Wide1(p, fn.code[ip], fn.code[ip + 1], fn.code[ip + 2]);
    }

    /** Runs n opcodes, or until the function ends. */
    method Interpret(p: Prims, n: nat) returns (e: Ending)
      requires Valid()
      modifies this
      ensures Valid() && StateOf(e, ip, stack, Vars()) == ByteRun(p, fn, At(old(ip), old(stack), old(Vars())), n)
    {
      var i := 0;
      e := Running;
      while i < n && e.Running?
        invariant 0 <= i <= n && Valid()
        invariant ByteRun(p, fn, StateOf(e, ip, stack, Vars()), n - i) == ByteRun(p, fn, At(old(ip), old(stack), old(Vars())), n)
      {
        e := Trip(p);
        i := i + 1;
      }
      RunEnded(p, fn, StateOf(e, ip, stack, Vars()), n - i);
    }
  }

  lemma {:induction false} RunEnded(p: Prims, f: Fn, s: State, n: nat)
    ensures !s.At? || n == 0 ==> ByteRun(p, f, s, n) == s
    decreases n
  {
    if !s.At? && n > 0 { RunEnded(p, f, s, n - 1); }
  }

  /** What a three byte opcode does. */
  function WideState(p: Prims, f: Fn, oc: byte, x: byte, y: byte, ip: int, stack: seq<Value>, env: Env): State
    requires Wide(oc)
  {
    var d := ParseWide(f.names, f.values, oc, x, y);
    if d.Bad? then Stuck
    else if IsJump(d.ops[0]) then DoOne(p, Aim(d.ops[0], ip + 3 + d.ops[0].to), ip + 3, stack, env)
    else DoOps(p, d.ops, ip + 3, stack, env)
  }

  lemma TripBare(p: Prims, f: Fn, ip: int, stack: seq<Value>, env: Env)
    requires 0 <= ip < |f.code| && Bare(f.code[ip]).Some?
    ensures ByteStep(p, f, At(ip, stack, env)) == DoOne(p, Bare(f.code[ip]).value, ip + 1, stack, env)
  {
    BareIsNoJump(f.code[ip]);
  }

  lemma TripShort(p: Prims, f: Fn, ip: int, stack: seq<Value>, env: Env)
    requires 0 <= ip < |f.code| && Bare(f.code[ip]).None? && Short(f.code[ip])
    ensures var d := ParseShort(f.names, f.values, f.code[ip], ByteAt(f.code, ip + 1));
            ByteStep(p, f, At(ip, stack, env))
            == if ip + 2 > |f.code| || d.Bad? then Stuck else DoOps(p, d.ops, ip + 2, stack, env)
  {
    var d := ParseShort(f.names, f.values, f.code[ip], ByteAt(f.code, ip + 1));
    assert d.Parsed? ==> !IsJump(d.ops[0]);
  }

  lemma DecodeWide(f: Fn, ip: int)
    requires 0 <= ip < |f.code| && Bare(f.code[ip]).None? && !Short(f.code[ip]) && Wide(f.code[ip])
    ensures var d := ParseWide(f.names, f.values, f.code[ip], ByteAt(f.code, ip + 1), ByteAt(f.code, ip + 2));
            Decode(f, ip) == if ip + 3 > |f.code| || d.Bad? then Bad
                             else if IsJump(d.ops[0]) then Parsed([Aim(d.ops[0], ip + 3 + d.ops[0].to)], 3) else d
  {
  }

  lemma TripWide(p: Prims, f: Fn, ip: int, stack: seq<Value>, env: Env)
    requires 0 <= ip < |f.code| && Bare(f.code[ip]).None? && !Short(f.code[ip]) && Wide(f.code[ip])
    ensures ByteStep(p, f, At(ip, stack, env))
         == if ip + 3 > |f.code| then Stuck
            else WideState(p, f, f.code[ip], ByteAt(f.code, ip + 1), ByteAt(f.code, ip + 2), ip, stack, env)
  {
    DecodeWide(f, ip);
    StepDecoded(p, f, ip, stack, env, Decode(f, ip));
  }

  lemma StepDecoded(p: Prims, f: Fn, ip: int, stack: seq<Value>, env: Env, d: Parsed)
    requires 0 <= ip < |f.code| && d == Decode(f, ip)
    ensures d.Parsed? ==> 1 <= |d.ops| <= 2
    ensures ByteStep(p, f, At(ip, stack, env)) == if d.Bad? then Stuck else DoOps(p, d.ops, ip + d.len, stack, env)
  {
  }

  /** A jump opcode. */
  lemma WideJump(p: Prims, f: Fn, oc: byte, x: byte, y: byte, ip: int, stack: seq<Value>, env: Env)
    requires JumpTo(oc, 0).Some?
    ensures var to := ip + 3 + Int16(x, y);
            JumpTo(oc, to).Some? && WideState(p, f, oc, x, y, ip, stack, env) == DoOne(p, JumpTo(oc, to).value, ip + 3, stack, env)
  {
  }

  /** s is what a jump to `to` leads to from `at`; sealed. */
  ghost predicate Jumped(p: Prims, oc: byte, to: int, at: int, stack: seq<Value>, env: Env, s: State) {
    var sealed := forall u: int {:trigger Look(u)} :: Look(u) ==>
      JumpTo(oc, to).Some? && s == DoOne(p, JumpTo(oc, to).value, at, stack, env);
    sealed
  }

  lemma JumpedAlways(p: Prims, to: int, at: int, stack: seq<Value>, env: Env)
    ensures Jumped(p, ocJump, to, at, stack, env, At(to, stack, env))
  {
  }

  lemma JumpedNowhere(p: Prims, oc: byte, to: int, at: int, stack: seq<Value>, env: Env)
    requires JumpTo(oc, 0).Some? && oc != ocJump && |stack| < 1
    ensures Jumped(p, oc, to, at, stack, env, Stuck)
  {
  }

  /** The other jumps look at a boolean. */
  lemma TestsBool(oc: byte)
    requires JumpTo(oc, 0).Some? && oc != ocJump && oc != ocIn && oc != ocJumpIs && oc != ocJumpIsnt
    ensures oc == ocJumpTrue || oc == ocJumpFalse || oc == ocQMark || oc == ocAnd || oc == ocOr
  {
  }

  lemma BareIsNoJump(oc: byte)
    requires Bare(oc).Some?
    ensures !IsJump(Bare(oc).value)
  {
  }
}
