/**
  Byte code: the opcodes of the modelled subset with their numbers, how an
  instruction is read from the bytes, and the machine that runs them.
  A fused opcode stands for two instructions.
  */
module Bytes {
  import opened Ast
  import opened Ops

  type byte = b: int | 0 <= b < 256

  const ocNop: byte := 0
  const ocPop: byte := 1
  const ocInt: byte := 2
  const ocValue: byte := 3
  const ocTrue: byte := 4
  const ocFalse: byte := 5
  const ocZero: byte := 6
  const ocOne: byte := 7
  const ocMinusOne: byte := 8
  const ocEmptyStr: byte := 10
  const ocLoad: byte := 12
  const ocStore: byte := 13
  const ocLoadStore: byte := 14
  const ocGlobal: byte := 16
  const ocGet: byte := 17
  const ocThis: byte := 22
  const ocIs: byte := 23
  const ocCatN: byte := 34
  const ocDiv: byte := 36
  const ocOr: byte := 48
  const ocAnd: byte := 49
  const ocBool: byte := 50
  const ocQMark: byte := 51
  const ocIn: byte := 52
  const ocJump: byte := 54
  const ocJumpTrue: byte := 55
  const ocJumpFalse: byte := 56
  const ocJumpIs: byte := 57
  const ocJumpIsnt: byte := 58
  const ocThrow: byte := 66
  const ocCallFuncNoNil: byte := 70
  const ocCallMethNoNil: byte := 73
  const ocReturn: byte := 76
  const ocReturnNil: byte := 77
  const ocLoadValue: byte := 85
  const ocValueCallMethNoNil: byte := 86
  const ocValueGet: byte := 87
  const ocLoadLoad: byte := 88
  const ocThisValue: byte := 89
  const ocStorePop: byte := 90
  const ocThisLoad: byte := 91
  const ocGetValue: byte := 92
  const ocPopLoad: byte := 93
  const ocGlobalCallFuncNoNil: byte := 94

  function CompareCode(op: CompareOp): byte {
    match op
    case Is => 23 case Isnt => 24 case Match => 25 case MatchNot => 26
    case Lt => 27 case Lte => 28 case Gt => 29 case Gte => 30
  }

  function ArithCode(op: ArithOp): byte {
    match op
    case Add => 31 case Sub => 32 case Cat => 33 case Mul => 35 case Div => 36 case Mod => 37
    case LShift => 38 case RShift => 39 case BitOr => 40 case BitAnd => 41 case BitXor => 42
  }

  function UnaryCode(op: UnaryOp): byte {
    match op case BitNot => 43 case Not => 44 case Plus => 45 case Minus => 46
  }

  /** The instructions without operands. */
  function Bare(oc: byte): Option<Op> {
    if oc == ocPop then Some(Pop)
    else if 4 <= oc <= 10 then Literal(oc)
    else if 23 <= oc <= 30 then Some(Compare2(CompareOf(oc)))
    else if 31 <= oc <= 42 && oc != 34 then Some(Arith(ArithOf(oc)))
    else if 43 <= oc <= 46 then Some(Unary1(if oc == 43 then BitNot else if oc == 44 then Not else if oc == 45 then Plus else Minus))
    else if oc == ocBool then Some(Bool1)
    else if oc == ocThrow then Some(Throw)
    else if oc == ocReturn then Some(Ret)
    else if oc == ocReturnNil then Some(RetNil)
    else None
  }

  function Literal(oc: byte): Option<Op> {
    if oc == ocTrue then Some(Push(Bool(true)))
    else if oc == ocFalse then Some(Push(Bool(false)))
    else if oc == ocZero then Some(Push(Int(0)))
    else if oc == ocOne then Some(Push(Int(1)))
    else if oc == ocMinusOne then Some(Push(Int(-1)))
    else if oc == ocEmptyStr then Some(Push(Str("")))
    else None
  }

  function CompareOf(oc: byte): CompareOp
    requires 23 <= oc <= 30
  {
    if oc == 23 then Is else if oc == 24 then Isnt else if oc == 25 then Match else if oc == 26 then MatchNot
    else if oc == 27 then Lt else if oc == 28 then Lte else if oc == 29 then Gt else Gte
  }

  function ArithOf(oc: byte): ArithOp
    requires 31 <= oc <= 42 && oc != 34
  {
    if oc == 31 then Add else if oc == 32 then Sub else if oc == 33 then Cat else if oc == 35 then Mul
    else if oc == 36 then Div else if oc == 37 then Mod else if oc == 38 then LShift else if oc == 39 then RShift
    else if oc == 40 then BitOr else if oc == 41 then BitAnd else BitXor
  }

  /** The operation that the second operand of LoadStore selects. */
  function UpdateOf(i: int): ArithOp
    requires 0 <= i <= 10
  {
    ArithOf(if i < 3 then 31 + i else 32 + i)
  }

  function UpdateCode(op: ArithOp): (i: byte)
    ensures i <= 10 && UpdateOf(i) == op
  {
    var c := ArithCode(op);
    if c < 34 then c - 31 else c - 32
  }

  function JumpTo(oc: byte, to: int): Option<Op> {
    if oc == ocJump then Some(Jump(to))
    else if oc == ocJumpTrue then Some(JumpTrue(to))
    else if oc == ocJumpFalse then Some(JumpFalse(to))
    else if oc == ocAnd then Some(And(to))
    else if oc == ocOr then Some(Or(to))
    else if oc == ocQMark then Some(QMark(to))
    else if oc == ocIn then Some(InJump(to))
    else if oc == ocJumpIs then Some(JumpIs(to))
    else if oc == ocJumpIsnt then Some(JumpIsnt(to))
    else None
  }

  // ------------------------------------------------------ two's complement

  predicate IsInt16(n: int) { -32768 <= n <= 32767 }

  function Hi(n: int): byte { (n / 256) % 256 }
  function Lo(n: int): byte { n % 256 }

  function Int16(hi: byte, lo: byte): int {
    var n := hi * 256 + lo;
    if n >= 32768 then n - 65536 else n
  }

  lemma Int16RoundTrip(n: int)
    requires IsInt16(n)
    ensures Int16(Hi(n), Lo(n)) == n
  {
    assert n == (n / 256) * 256 + n % 256;
  }

  // ------------------------------------------------------------------ reading

  /** One or two instructions and the bytes they take; a jump's `to` is its offset. */
  datatype Parsed = Bad | Parsed(ops: seq<Op>, len: int)

  datatype Fn = Fn(code: seq<byte>, names: seq<string>, values: seq<Value>)

  predicate Short(oc: byte) {
    oc == ocValue || oc == ocCatN || oc == ocLoad || oc == ocStore || oc == ocStorePop || oc == ocPopLoad
  }

  predicate Wide(oc: byte) {
    oc == ocInt || oc == ocLoadStore || oc == ocLoadLoad || oc == ocLoadValue || JumpTo(oc, 0).Some?
  }

  /** An opcode followed by the bytes x and y, as far as they belong to it. */
  function Parse(names: seq<string>, values: seq<Value>, oc: byte, x: byte, y: byte): (r: Parsed)
    ensures r.Parsed? ==> 1 <= |r.ops| <= 2 && 1 <= r.len <= 3
  {
    if Bare(oc).Some? then Parsed([Bare(oc).value], 1)
    else if Short(oc) then ParseShort(names, values, oc, x)
    else if Wide(oc) then ParseWide(names, values, oc, x, y)
    else Bad
  }

  function ParseShort(names: seq<string>, values: seq<Value>, oc: byte, x: byte): (r: Parsed)
    requires Short(oc)
    ensures r.Parsed? ==> 1 <= |r.ops| <= 2 && r.len == 2
  {
    if oc == ocValue then (if x < |values| then Parsed([Push(values[x])], 2) else Bad)
    else if oc == ocCatN then Parsed([CatN(x)], 2)
    else if x >= |names| then Bad
    else if oc == ocLoad then Parsed([Load(names[x])], 2)
    else if oc == ocStore then Parsed([Store(names[x])], 2)
    else if oc == ocStorePop then Parsed([Store(names[x]), Pop], 2)
    else Parsed([Pop, Load(names[x])], 2)
  }

  function ParseWide(names: seq<string>, values: seq<Value>, oc: byte, x: byte, y: byte): (r: Parsed)
    requires Wide(oc)
    ensures r.Parsed? ==> 1 <= |r.ops| <= 2 && r.len == 3
  {
    if oc == ocInt then Parsed([Push(Int(Int16(x, y)))], 3)
    else if JumpTo(oc, 0).Some? then Parsed([JumpTo(oc, Int16(x, y)).value], 3)
    else if x >= |names| then Bad
    else if oc == ocLoadStore then
      (if y / 2 <= 10 then Parsed([LoadStore(names[x], UpdateOf(y / 2), y % 2 == 1)], 3) else Bad)
    else if oc == ocLoadLoad then
      (if y < |names| then Parsed([Load(names[x]), Load(names[y])], 3) else Bad)
    else
      (if y < |values| then Parsed([Load(names[x]), Push(values[y])], 3) else Bad)
  }

  function ByteAt(code: seq<byte>, i: int): byte { if 0 <= i < |code| then code[i] else 0 }

  /** The instruction at ip, with a jump's `to` an address. */
  function Decode(f: Fn, ip: int): Parsed
    requires 0 <= ip < |f.code|
  {
    var r := Parse(f.names, f.values, f.code[ip], ByteAt(f.code, ip + 1), ByteAt(f.code, ip + 2));
    if r.Bad? || ip + r.len > |f.code| then Bad
    else if IsJump(r.ops[0]) then Parsed([Aim(r.ops[0], ip + 3 + r.ops[0].to)], 3)
    else r
  }

  /** The same jump, to another place. */
  function Aim(op: Op, to: int): Op {
    match op
    case Jump(_) => Jump(to) case JumpTrue(_) => JumpTrue(to) case JumpFalse(_) => JumpFalse(to)
    case And(_) => And(to) case Or(_) => Or(to) case QMark(_) => QMark(to) case InJump(_) => InJump(to)
    case JumpIs(_) => JumpIs(to) case JumpIsnt(_) => JumpIsnt(to)
    case _ => op
  }

  // ------------------------------------------------------------------ running

  function DoOne(p: Prims, op: Op, next: int, stack: seq<Value>, env: Env): State {
    if |stack| < Needs(op) then Stuck else Do(p, op, next - 1, stack, env)
  }

  /** One trip around the interpreter's loop; pc is the address of a byte. */
  function ByteStep(p: Prims, f: Fn, s: State): State {
    if !s.At? then s
    else if s.pc < 0 || s.pc > |f.code| then Stuck
    else if s.pc == |f.code| then Finish(s.stack, s.env)
    else
      var d := Decode(f, s.pc);
      if d.Bad? then Stuck
      else
        var s1 := DoOne(p, d.ops[0], s.pc + d.len, s.stack, s.env);
        if |d.ops| == 1 || !s1.At? then s1
        else DoOne(p, d.ops[1], s.pc + d.len, s1.stack, s1.env)
  }

  function ByteRun(p: Prims, f: Fn, s: State, n: nat): State
    decreases n
  {
    if n == 0 then s else ByteRun(p, f, ByteStep(p, f, s), n - 1)
  }
}
