/**
  What holds of the bytes at every moment of a compilation.  Next to the bytes
  stands the list of instructions they spell; some of its jumps may still be
  waiting for their label, their operand being a link to the previous jump that
  waits for the same label.
  */
module Encoding {
  import opened Ast
  import opened Ops
  import opened Bytes

  /**
    code, names, values and prev are the compiler's own; the rest is for the proof.
    m: the instructions; pos: where each starts, and where the next one will;
    fused: those that became the second half of a fused opcode; links: the jumps
    still waiting, each with the number of the previous one on its chain or -1;
    marks: the places a jump may go to; base: how many of the names are parameters.
    */
  datatype Gen = Gen(
    code: seq<byte>, names: seq<string>, values: seq<Value>, prev: byte,
    m: seq<Op>, pos: seq<int>, fused: set<int>, links: map<int, int>, marks: set<int>, base: nat)

  function FnOf(g: Gen): Fn { Fn(g.code, g.names, g.values) }

  /** The byte position of the jump numbered h, which is what a chain link holds. */
  function LabelOf(g: Gen, h: int): int {
    if 0 <= h < |g.pos| then g.pos[h] else -1
  }

  /** Where jump k goes as the bytes stand; one that goes astray has its own address as its offset. */
  function Goes(g: Gen, k: int): int
    requires 0 <= k < |g.m| < |g.pos|
  {
    if k in g.links then g.pos[k + 1] + LabelOf(g, g.links[k])
    else if IsJump(g.m[k]) && 0 <= g.m[k].to < |g.pos| then g.pos[g.m[k].to]
    else g.pos[k + 1] + g.pos[k]
  }

  ghost predicate Slot(g: Gen, k: int)
    requires 0 <= k < |g.m| && |g.pos| == |g.m| + 1
  {
    k in g.fused
    || (0 <= g.pos[k] < |g.code|
        && Decode(FnOf(g), g.pos[k])
           == if k + 1 in g.fused && k + 1 < |g.m| then Parsed([g.m[k], g.m[k + 1]], g.pos[k + 2] - g.pos[k])
              else Parsed([Aim(g.m[k], Goes(g, k))], g.pos[k + 1] - g.pos[k]))
  }

  ghost predicate Places(g: Gen) {
    |g.pos| == |g.m| + 1 && g.pos[0] == 0 && g.pos[|g.m|] == |g.code|
    && (forall k :: 0 <= k <= |g.m| ==> 0 <= g.pos[k] <= |g.code|)
    && (forall j, k :: 0 <= j <= k <= |g.m| ==> g.pos[j] <= g.pos[k])
  }

  ghost predicate Spelled(g: Gen)
    requires |g.pos| == |g.m| + 1
  {
    forall k :: 0 <= k < |g.m| ==> Slot(g, k)
  }

  ghost predicate Halves(g: Gen) {
    (forall k :: k in g.fused ==> 0 < k < |g.m| && !IsJump(g.m[k]))
    && (forall k {:trigger Half(g, k)} :: k in g.fused ==> Half(g, k))
  }

  /** Instruction k was fused onto the one before it. */
  ghost predicate Half(g: Gen, k: int) {
    0 < k <= |g.m| && k - 1 !in g.fused && !IsJump(g.m[k - 1])
  }

  /** A jump goes to the start of an instruction, never into a fused one. */
  ghost predicate Jumps(g: Gen) {
    (forall t :: t in g.marks ==> 0 <= t <= |g.m| && t !in g.fused)
    && (forall k :: k in g.links ==> 0 <= k < |g.m| && IsJump(g.m[k]) && -1 <= g.links[k] < k)
    && (forall k :: 0 <= k < |g.m| && IsJump(g.m[k]) && k !in g.links ==> g.m[k].to in g.marks || g.m[k] == Jump(Nowhere))
  }

  /** prev is the last opcode, if it may still be fused with the next one. */
  ghost predicate Previous(g: Gen)
    requires Places(g)
  {
    g.prev != ocNop
    ==> |g.m| > 0 && |g.m| !in g.marks && |g.m| - 1 !in g.fused
        && g.pos[|g.m| - 1] < |g.code| && g.code[g.pos[|g.m| - 1]] == g.prev
  }

  ghost predicate Encoded(g: Gen) {
    var all :=
      Places(g) && Spelled(g) && Halves(g) && Jumps(g) && Previous(g);
    all
  }

  /** No jump is waiting for its label. */
  ghost predicate Finished(g: Gen) { Encoded(g) && g.links == map[] }

  // ------------------------------------------------- decoding is local

  /** Parse reads x only when the instruction has two bytes, y only when it has three. */
  lemma ParseLocal(names: seq<string>, values: seq<Value>, names1: seq<string>, values1: seq<Value>, oc: byte, x: byte, y: byte, x1: byte, y1: byte)
    requires names <= names1 && values <= values1
    requires Parse(names, values, oc, x, y).Parsed?
    requires Parse(names, values, oc, x, y).len >= 2 ==> x1 == x
    requires Parse(names, values, oc, x, y).len >= 3 ==> y1 == y
    ensures Parse(names1, values1, oc, x1, y1) == Parse(names, values, oc, x, y)
  {
  }

  /** An instruction reads the same in any code that has the same bytes there. */
  lemma DecodeLocal(f: Fn, f1: Fn, ip: int)
    requires 0 <= ip < |f.code| && Decode(f, ip).Parsed?
    requires f.names <= f1.names && f.values <= f1.values
    requires ip + Decode(f, ip).len <= |f1.code|
    requires forall q :: ip <= q < ip + Decode(f, ip).len ==> f1.code[q] == f.code[q]
    ensures Decode(f1, ip) == Decode(f, ip)
  {
    var r := Parse(f.names, f.values, f.code[ip], ByteAt(f.code, ip + 1), ByteAt(f.code, ip + 2));
    assert Decode(f, ip).len == r.len;
    assert f1.code[ip] == f.code[ip];
    if r.len >= 2 { assert f1.code[ip + 1] == f.code[ip + 1]; }
    if r.len >= 3 { assert f1.code[ip + 2] == f.code[ip + 2]; }
    ParseLocal(f.names, f.values, f1.names, f1.values, f.code[ip], ByteAt(f.code, ip + 1), ByteAt(f.code, ip + 2),
               ByteAt(f1.code, ip + 1), ByteAt(f1.code, ip + 2));
  }

  // ------------------------------------------------------------- appending

  /** g1 has the instructions of g and more, and keeps every position. */
  ghost predicate Grown(g: Gen, g1: Gen) {
    var all :=
      g.m <= g1.m && g.pos <= g1.pos && g.names <= g1.names && g.values <= g1.values && g.marks <= g1.marks
      && g1.base == g.base && (Distinct(g.names) ==> Distinct(g1.names));
    all
  }

  predicate Distinct(names: seq<string>) {
    forall i, j :: 0 <= i < j < |names| ==> names[i] != names[j]
  }

  /** Where a jump that is not new goes does not change. */
  lemma GoesSame(g: Gen, g1: Gen, k: int)
    requires Places(g) && Jumps(g) && Places(g1) && Grown(g, g1) && 0 <= k < |g.m|
    requires k in g.links <==> k in g1.links
    requires k in g.links ==> g1.links[k] == g.links[k]
    requires IsJump(g.m[k])
    ensures Goes(g1, k) == Goes(g, k)
  {
  }

  lemma AimSame(op: Op, a: int, b: int)
    requires IsJump(op) ==> a == b
    ensures Aim(op, a) == Aim(op, b)
  {
  }

  /** One more instruction whose bytes are oc followed by b. */
  ghost predicate Appends(g: Gen, g1: Gen, oc: byte, b: seq<byte>, op: Op) {
    g1.code == g.code + [oc] + b && g1.m == g.m + [op] && g1.pos == g.pos + [|g.code| + 1 + |b|]
    && g1.names == g.names && g1.values == g.values && g1.fused == g.fused && g1.prev == oc && g1.base == g.base
  }

  lemma SlotSame(g: Gen, g1: Gen, k: int)
    requires Encoded(g) && Places(g1) && Grown(g, g1) && 0 <= k < |g.m|
    requires k in g.links <==> k in g1.links
    requires k in g.links ==> g1.links[k] == g.links[k]
    requires g.fused <= g1.fused
    requires k !in g.fused ==> (k + 1 in g1.fused ==> k + 1 in g.fused)
    requires |g.code| <= |g1.code|
    requires forall q :: g.pos[k] <= q < g.pos[k + 1] ==> g1.code[q] == g.code[q]
    requires k + 1 in g.fused ==> forall q :: g.pos[k + 1] <= q < g.pos[k + 2] ==> g1.code[q] == g.code[q]
    ensures Slot(g1, k)
  {
    if k !in g.fused {
      assert Slot(g, k);
      DecodeLocal(FnOf(g), FnOf(g1), g.pos[k]);
      if IsJump(g.m[k]) { GoesSame(g, g1, k); }
      AimSame(g.m[k], Goes(g, k), Goes(g1, k));
    }
  }

  lemma HalvesKept(g: Gen, g1: Gen)
    requires Halves(g) && g.m <= g1.m && g1.fused == g.fused
    ensures Halves(g1)
  {
    forall k | k in g1.fused ensures Half(g1, k) {
      assert Half(g, k);
    }
  }

  /** A plain instruction goes after the code so far. */
  lemma AppendKeepsSlots(g: Gen, g1: Gen, oc: byte, b: seq<byte>, op: Op)
    requires Encoded(g) && Appends(g, g1, oc, b, op) && Places(g1) && g.marks <= g1.marks
    requires forall k :: 0 <= k < |g.m| ==> (k in g.links <==> k in g1.links) && (k in g.links ==> g1.links[k] == g.links[k])
    requires Slot(g1, |g.m|)
    ensures Spelled(g1)
  {
    forall k | 0 <= k < |g1.m| ensures Slot(g1, k) {
      if k < |g.m| { SlotSame(g, g1, k); }
    }
  }

  /** The bytes oc, b are the instruction op. */
  predicate Spells(names: seq<string>, values: seq<Value>, oc: byte, b: seq<byte>, op: Op) {
    |b| <= 2 && Parse(names, values, oc, ByteAt(b, 0), ByteAt(b, 1)) == Parsed([op], 1 + |b|)
  }

  function Plain(g: Gen, oc: byte, b: seq<byte>, op: Op): Gen {
    g.(code := g.code + [oc] + b, m := g.m + [op], pos := g.pos + [|g.code| + 1 + |b|], prev := oc)
  }

  /** A jump that waits for its label, chained to the jump numbered h. */
  function Pending(g: Gen, oc: byte, b: seq<byte>, op: Op, h: int): Gen {
    Plain(g, oc, b, op).(links := g.links[|g.m| := h])
  }

  /** A jump to a place already passed. */
  function Backward(g: Gen, oc: byte, b: seq<byte>, op: Op): Gen
    requires IsJump(op)
  {
    Plain(g, oc, b, op).(marks := g.marks + {op.to})
  }

  lemma PlainPlaces(g: Gen, g1: Gen, oc: byte, b: seq<byte>, op: Op)
    requires Encoded(g) && Appends(g, g1, oc, b, op)
    ensures Places(g1) && g.m <= g1.m && g.pos <= g1.pos
  {
  }

  /** Bytes at the end of the code read as they would anywhere. */
  lemma DecodeLast(g: Gen, g1: Gen, oc: byte, b: seq<byte>, op: Op, rel: Op)
    requires Encoded(g) && Appends(g, g1, oc, b, op) && Spells(g.names, g.values, oc, b, rel)
    ensures |g.code| < |g1.code|
    ensures Decode(FnOf(g1), |g.code|)
         == Parsed([if IsJump(rel) then Aim(rel, |g.code| + 3 + rel.to) else rel], 1 + |b|)
  {
    LastBytes(g.code, oc, b, g1.code);
    DecodeSpelled(FnOf(g1), |g.code|, oc, b, rel);
  }

  lemma LastBytes(code: seq<byte>, oc: byte, b: seq<byte>, code1: seq<byte>)
    requires code1 == code + [oc] + b && |b| <= 2
    ensures var ip := |code|;
      ip < |code1| && code1[ip] == oc && ByteAt(code1, ip + 1) == ByteAt(b, 0) && ByteAt(code1, ip + 2) == ByteAt(b, 1)
  {
    var ip := |code|;
    assert |b| >= 1 ==> code1[ip + 1] == b[0];
    assert |b| >= 2 ==> code1[ip + 2] == b[1];
  }

  lemma DecodeSpelled(f: Fn, ip: int, oc: byte, b: seq<byte>, rel: Op)
    requires 0 <= ip && ip + 1 + |b| <= |f.code| && f.code[ip] == oc && Spells(f.names, f.values, oc, b, rel)
    requires ByteAt(f.code, ip + 1) == ByteAt(b, 0) && ByteAt(f.code, ip + 2) == ByteAt(b, 1)
    ensures Decode(f, ip) == Parsed([if IsJump(rel) then Aim(rel, ip + 3 + rel.to) else rel], 1 + |b|)
  {
    if IsJump(rel) { assert 1 + |b| == 3; }
  }

  lemma PlainEncoded(g: Gen, g1: Gen, oc: byte, b: seq<byte>, op: Op)
    requires Encoded(g) && !IsJump(op) && Spells(g.names, g.values, oc, b, op)
    requires g1 == Plain(g, oc, b, op)
    ensures Encoded(g1) && Grown(g, g1)
  {
    PlainPlaces(g, g1, oc, b, op);
    HalvesKept(g, g1);
    DecodeLast(g, g1, oc, b, op, op);
    assert Aim(op, Goes(g1, |g.m|)) == op;
    assert |g.m| + 1 !in g1.fused;
    AppendKeepsSlots(g, g1, oc, b, op);
  }

  lemma PendingEncoded(g: Gen, g1: Gen, oc: byte, b: seq<byte>, op: Op, h: int)
    requires Encoded(g) && IsJump(op) && -1 <= h < |g.m|
    requires Spells(g.names, g.values, oc, b, Aim(op, LabelOf(g, h)))
    requires g1 == Pending(g, oc, b, op, h)
    ensures Encoded(g1) && Grown(g, g1)
  {
    var rel := Aim(op, LabelOf(g, h));
    PlainPlaces(g, g1, oc, b, op);
    HalvesKept(g, g1);
    DecodeLast(g, g1, oc, b, op, rel);
    assert LabelOf(g1, h) == LabelOf(g, h);
    assert Goes(g1, |g.m|) == |g.code| + 3 + rel.to;
    AimTwice(op, LabelOf(g, h), Goes(g1, |g.m|));
    AppendKeepsSlots(g, g1, oc, b, op);
  }

  lemma AimTwice(op: Op, a: int, b: int)
    ensures Aim(Aim(op, a), b) == Aim(op, b) && IsJump(Aim(op, a)) == IsJump(op)
    ensures IsJump(op) ==> Aim(op, a).to == a && Aim(op, op.to) == op
  {
  }

  lemma BackwardEncoded(g: Gen, g1: Gen, oc: byte, b: seq<byte>, op: Op)
    requires Encoded(g) && IsJump(op) && 0 <= op.to <= |g.m| && op.to !in g.fused
    requires op.to == |g.m| ==> op.to in g.marks
    requires |b| == 2 && Spells(g.names, g.values, oc, b, Aim(op, g.pos[op.to] - |g.code| - 3))
    requires g1 == Backward(g, oc, b, op)
    ensures Encoded(g1) && Grown(g, g1)
  {
    var d := g.pos[op.to] - |g.code| - 3;
    PlainPlaces(g, g1, oc, b, op);
    AimTwice(op, d, g.pos[op.to]);
    HalvesKept(g, g1);
    DecodeLast(g, g1, oc, b, op, Aim(op, d));
    assert Goes(g1, |g.m|) == g.pos[op.to];
    AppendKeepsSlots(g, g1, oc, b, op);
  }

  /** A jump to nowhere, the offset being the address it has. */
  lemma StrayEncoded(g: Gen, g1: Gen, oc: byte, b: seq<byte>, op: Op)
    requires Encoded(g) && op == Jump(Nowhere)
    requires |b| == 2 && Spells(g.names, g.values, oc, b, Aim(op, |g.code|))
    requires g1 == Plain(g, oc, b, op)
    ensures Encoded(g1) && Grown(g, g1)
  {
    PlainPlaces(g, g1, oc, b, op);
    AimTwice(op, |g.code|, |g.code| + 3 + |g.code|);
    HalvesKept(g, g1);
    DecodeLast(g, g1, oc, b, op, Aim(op, |g.code|));
    assert Goes(g1, |g.m|) == |g.code| + 3 + |g.code|;
    AppendKeepsSlots(g, g1, oc, b, op);
  }

  // ---------------------------------------------------------------- labels

  function Marked(g: Gen): Gen { g.(marks := g.marks + {|g.m|}, prev := ocNop) }

  lemma MarkedEncoded(g: Gen)
    requires Encoded(g)
    ensures Encoded(Marked(g)) && Grown(g, Marked(g))
  {
    var g1 := Marked(g);
    HalvesKept(g, g1);
    forall k | 0 <= k < |g1.m| ensures Slot(g1, k) {
      SlotSame(g, g1, k);
    }
  }

  function WithNames(g: Gen, names: seq<string>, values: seq<Value>): Gen { g.(names := names, values := values) }

  lemma NamedEncoded(g: Gen, names: seq<string>, values: seq<Value>)
    requires Encoded(g) && g.names <= names && g.values <= values && (Distinct(g.names) ==> Distinct(names))
    ensures Encoded(WithNames(g, names, values)) && Grown(g, WithNames(g, names, values))
  {
    var g1 := WithNames(g, names, values);
    HalvesKept(g, g1);
    forall k | 0 <= k < |g1.m| ensures Slot(g1, k) {
      SlotSame(g, g1, k);
    }
  }

  // ------------------------------------------------------------- patching

  /** The code with adr as the operand of the jump at i. */
  function PatchAt(code: seq<byte>, i: int, adr: int): seq<byte>
    requires 0 <= i && i + 3 <= |code|
  {
    code[i + 1 := Hi(adr)][i + 2 := Lo(adr)]
  }

  function Patched(g: Gen, k: int): Gen
    requires Places(g) && 0 <= k < |g.m| && g.pos[k] + 3 <= |g.code|
  {
    g.(code := PatchAt(g.code, g.pos[k], |g.code| - (g.pos[k] + 3)), links := g.links - {k})
  }

  /** A jump takes three bytes and is not fused. */
  lemma JumpBytes(g: Gen, k: int)
    requires Encoded(g) && 0 <= k < |g.m| && IsJump(g.m[k])
    ensures k !in g.fused && k + 1 !in g.fused && g.pos[k + 1] == g.pos[k] + 3 && g.pos[k] + 3 <= |g.code|
    ensures JumpTo(g.code[g.pos[k]], 0).Some?
    ensures Parse(g.names, g.values, g.code[g.pos[k]], g.code[g.pos[k] + 1], g.code[g.pos[k] + 2])
         == Parsed([Aim(g.m[k], Goes(g, k) - g.pos[k] - 3)], 3)
  {
    assert Slot(g, k);
    var q := g.pos[k];
    var r := Parse(g.names, g.values, g.code[q], ByteAt(g.code, q + 1), ByteAt(g.code, q + 2));
    AimTwice(g.m[k], Goes(g, k), Goes(g, k) - q - 3);
    JumpParse(g.names, g.values, g.code[q], ByteAt(g.code, q + 1), ByteAt(g.code, q + 2));
    AimBack(r.ops[0], g.m[k], q + 3 + r.ops[0].to, Goes(g, k));
  }

  lemma AimBack(a: Op, op: Op, x: int, y: int)
    requires IsJump(a) && Aim(a, x) == Aim(op, y)
    ensures x == y && a == Aim(op, a.to)
  {
  }

  lemma JumpParse(names: seq<string>, values: seq<Value>, oc: byte, x: byte, y: byte)
    requires Parse(names, values, oc, x, y).Parsed?
    ensures var r := Parse(names, values, oc, x, y);
            IsJump(r.ops[0]) <==> JumpTo(oc, 0).Some?
    ensures var r := Parse(names, values, oc, x, y);
            IsJump(r.ops[0]) ==> r == Parsed([JumpTo(oc, Int16(x, y)).value], 3)
  {
  }

  /** The same opcode with another operand is the same jump to another place. */
  lemma JumpAgain(oc: byte, a: int, b: int)
    requires JumpTo(oc, 0).Some?
    ensures JumpTo(oc, a).Some? && JumpTo(oc, b).Some? && Aim(JumpTo(oc, a).value, b) == JumpTo(oc, b).value
  {
  }

  lemma JumpReparse(names: seq<string>, values: seq<Value>, oc: byte, x: byte, y: byte, op: Op, d: int, adr: int)
    requires IsJump(op) && Parse(names, values, oc, x, y) == Parsed([Aim(op, d)], 3) && IsInt16(adr)
    ensures Parse(names, values, oc, Hi(adr), Lo(adr)) == Parsed([Aim(op, adr)], 3)
  {
    Int16RoundTrip(adr);
    AimTwice(op, d, adr);
    JumpParse(names, values, oc, x, y);
    JumpAgain(oc, Int16(x, y), adr);
    JumpParse(names, values, oc, Hi(adr), Lo(adr));
  }

  lemma PatchAtBytes(code: seq<byte>, i: int, adr: int)
    requires 0 <= i && i + 3 <= |code|
    ensures var c := PatchAt(code, i, adr);
            |c| == |code| && c[i] == code[i] && ByteAt(c, i + 1) == Hi(adr) && ByteAt(c, i + 2) == Lo(adr)
  {
  }

  lemma PatchedSlot(g: Gen, k: int)
    requires Encoded(g) && k in g.links && g.m[k].to == |g.m| && g.pos[k] + 3 <= |g.code|
    requires IsInt16(|g.code| - (g.pos[k] + 3))
    ensures Slot(Patched(g, k), k)
  {
    var q, adr, oc := g.pos[k], |g.code| - (g.pos[k] + 3), g.code[g.pos[k]];
    var x, y := PatchedBytes(g, k, q, adr, oc, PatchAt(g.code, q, adr));
    JumpSlot(Patched(g, k), k, adr, q, oc, x, y);
  }

  /** The bytes of a patched jump, and what they spell. */
  lemma PatchedBytes(g: Gen, k: int, q: int, adr: int, oc: byte, code: seq<byte>) returns (x: byte, y: byte)
    requires Encoded(g) && k in g.links && q == g.pos[k] && q + 3 <= |g.code| && oc == g.code[q] && IsInt16(adr)
    requires code == PatchAt(g.code, q, adr)
    ensures k + 1 !in g.fused && g.pos[k + 1] == q + 3
    ensures |code| == |g.code| && code[q] == oc && ByteAt(code, q + 1) == x && ByteAt(code, q + 2) == y
    ensures Parse(g.names, g.values, oc, x, y) == Parsed([Aim(g.m[k], adr)], 3)
  {
    x, y := Hi(adr), Lo(adr);
    JumpBytes(g, k);
    PatchAtBytes(g.code, q, adr);
    JumpReparse(g.names, g.values, oc, g.code[q + 1], g.code[q + 2], g.m[k], Goes(g, k) - q - 3, adr);
  }

  lemma JumpSlot(g: Gen, k: int, d: int, q: int, oc: byte, x: byte, y: byte)
    requires |g.pos| == |g.m| + 1 && 0 <= k < |g.m| && IsJump(g.m[k]) && k + 1 !in g.fused
    requires q == g.pos[k] && 0 <= q && q + 3 <= |g.code| && g.pos[k + 1] == q + 3 && Goes(g, k) == q + 3 + d
    requires g.code[q] == oc && ByteAt(g.code, q + 1) == x && ByteAt(g.code, q + 2) == y
    requires Parse(g.names, g.values, oc, x, y) == Parsed([Aim(g.m[k], d)], 3)
    ensures Slot(g, k)
  {
    AimTwice(g.m[k], d, Goes(g, k));
  }

  lemma PatchedOthers(g: Gen, k: int, j: int)
    requires Encoded(g) && k in g.links && g.pos[k] + 3 <= |g.code| && 0 <= j < |g.m| && j != k
    ensures Slot(Patched(g, k), j)
  {
    var g1 := Patched(g, k);
    JumpBytes(g, k);
    if j < k {
    } else {
    }
    SlotSame(g, g1, j);
  }

  lemma PatchedEncoded(g: Gen, k: int)
    requires Encoded(g) && k in g.links && g.m[k].to == |g.m| && |g.m| in g.marks && g.pos[k] + 3 <= |g.code|
    requires IsInt16(|g.code| - (g.pos[k] + 3))
    ensures Encoded(Patched(g, k)) && Grown(g, Patched(g, k))
  {
    var g1 := Patched(g, k);
    HalvesKept(g, g1);
    forall j | 0 <= j < |g1.m| ensures Slot(g1, j) {
      if j == k { PatchedSlot(g, k); } else { PatchedOthers(g, k, j); }
    }
  }

  // --------------------------------------------------------------- fusing

  /** A pair of opcodes that becomes one; firstArgs is how many operand bytes the first has. */
  datatype Combo = Combo(firstArgs: nat, first: byte, second: byte, combined: byte)

  const combos: seq<Combo> := [
    Combo(1, ocLoad, ocValue, ocLoadValue),
    Combo(1, ocValue, ocCallMethNoNil, ocValueCallMethNoNil),
    Combo(1, ocValue, ocGet, ocValueGet),
    Combo(1, ocLoad, ocLoad, ocLoadLoad),
    Combo(0, ocThis, ocValue, ocThisValue),
    Combo(1, ocStore, ocPop, ocStorePop),
    Combo(0, ocThis, ocLoad, ocThisLoad),
    Combo(0, ocGet, ocValue, ocGetValue),
    Combo(0, ocPop, ocLoad, ocPopLoad),
    Combo(2, ocGlobal, ocCallFuncNoNil, ocGlobalCallFuncNoNil)]

  predicate IsCombo(c: Combo) { c in combos }

  /** The bytes of a fused pair read as the two instructions of its halves. */
  lemma FusedParse(names: seq<string>, values: seq<Value>, c: Combo, x: byte, y: byte, b: seq<byte>, a: Op, op: Op)
    requires IsCombo(c) && Spells(names, values, c.second, b, op)
    requires Parse(names, values, c.first, x, y) == Parsed([a], 1 + c.firstArgs)
    ensures c.firstArgs <= 1 && c.firstArgs + |b| <= 2 && !IsJump(a) && !IsJump(op)
    ensures Parse(names, values, c.combined, if c.firstArgs == 1 then x else ByteAt(b, 0), ByteAt(b, 0))
         == Parsed([a, op], 1 + c.firstArgs + |b|)
  {
  }

  /** The last opcode replaced by the combined one, and the second one's operands. */
  function FuseOnto(code: seq<byte>, c: Combo, b: seq<byte>): seq<byte>
    requires c.firstArgs < |code|
  {
    code[|code| - 1 - c.firstArgs := c.combined] + b
  }

  /** The pair of the last opcode and the next one is in the table. */
  predicate Pairs(c: Combo, prev: byte, oc: byte) {
    IsCombo(c) && ocNop < prev <= ocThis && c.first == prev && c.second == oc
  }

  /** Emitting fuses the opcode with the last one if and only if they are a pair of the table. */
  ghost predicate Emits(code: seq<byte>, prev: byte, oc: byte, b: seq<byte>, code1: seq<byte>, prev1: byte) {
    var all :=
      && (forall c | Pairs(c, prev, oc) :: prev1 == ocNop && c.firstArgs < |code| && code1 == FuseOnto(code, c, b))
      && ((forall c :: !Pairs(c, prev, oc)) ==> prev1 == oc && code1 == code + [oc] + b);
    all
  }

  lemma PairUnique(c: Combo, d: Combo, prev: byte, oc: byte)
    requires Pairs(c, prev, oc) && Pairs(d, prev, oc)
    ensures c == d
  {
  }

  lemma FusedEmits(code: seq<byte>, prev: byte, oc: byte, b: seq<byte>, c: Combo)
    requires Pairs(c, prev, oc) && c.firstArgs < |code|
    ensures Emits(code, prev, oc, b, FuseOnto(code, c, b), ocNop)
  {
    forall d | Pairs(d, prev, oc) ensures d == c { PairUnique(c, d, prev, oc); }
  }

  lemma AppendedEmits(code: seq<byte>, prev: byte, oc: byte, b: seq<byte>)
    requires forall c :: !Pairs(c, prev, oc)
    ensures Emits(code, prev, oc, b, code + [oc] + b, oc)
  {
  }

  function Fused(g: Gen, c: Combo, b: seq<byte>, op: Op): Gen
    requires c.firstArgs < |g.code|
  {
    var code := FuseOnto(g.code, c, b);
    g.(code := code, m := g.m + [op], pos := g.pos + [|code|], fused := g.fused + {|g.m|}, prev := ocNop)
  }

  /** The instruction that is about to be fused is the last one, and c describes it. */
  lemma FusedFirst(g: Gen, c: Combo, b: seq<byte>, op: Op)
    requires Encoded(g) && g.prev != ocNop && IsCombo(c) && g.prev == c.first
    requires Spells(g.names, g.values, c.second, b, op)
    ensures var k := |g.m| - 1;
            g.pos[k] == |g.code| - 1 - c.firstArgs
            && Parse(g.names, g.values, c.first, ByteAt(g.code, g.pos[k] + 1), ByteAt(g.code, g.pos[k] + 2))
               == Parsed([g.m[k]], 1 + c.firstArgs)
  {
    var k := |g.m| - 1;
    assert Slot(g, k);
    FirstParse(g.names, g.values, c, ByteAt(g.code, g.pos[k] + 1), ByteAt(g.code, g.pos[k] + 2), b, op);
    AimSelf(g.m[k], Goes(g, k));
  }

  lemma AimSelf(op: Op, to: int)
    ensures !IsJump(Aim(op, to)) ==> Aim(op, to) == op
  {
  }

  lemma FirstParse(names: seq<string>, values: seq<Value>, c: Combo, x: byte, y: byte, b: seq<byte>, op: Op)
    requires IsCombo(c) && Spells(names, values, c.second, b, op)
    requires Parse(names, values, c.first, x, y).Parsed?
    ensures Parse(names, values, c.first, x, y).len == 1 + c.firstArgs
    ensures |Parse(names, values, c.first, x, y).ops| == 1 && !IsJump(Parse(names, values, c.first, x, y).ops[0])
  {
  }

  lemma FusedSlot(g: Gen, c: Combo, b: seq<byte>, op: Op)
    requires Encoded(g) && g.prev != ocNop && IsCombo(c) && g.prev == c.first
    requires Spells(g.names, g.values, c.second, b, op) && c.firstArgs < |g.code|
    ensures Slot(Fused(g, c, b, op), |g.m| - 1) && !IsJump(op) && !IsJump(g.m[|g.m| - 1])
  {
    var g1, k := Fused(g, c, b, op), |g.m| - 1;
    var q := g.pos[k];
    FusedFirst(g, c, b, op);
    FusedParse(g.names, g.values, c, ByteAt(g.code, q + 1), ByteAt(g.code, q + 2), b, g.m[k], op);
    assert g1.code[q] == c.combined;
    if c.firstArgs == 1 { assert g1.code[q + 1] == g.code[q + 1]; }
    if |b| > 0 { assert g1.code[q + 1 + c.firstArgs] == b[0]; }
    assert g1.pos[k] == q && g1.pos[k + 2] == |g1.code|;
    ParseLocal(g.names, g.values, g.names, g.values, c.combined,
               if c.firstArgs == 1 then ByteAt(g.code, q + 1) else ByteAt(b, 0), ByteAt(b, 0),
               ByteAt(g1.code, q + 1), ByteAt(g1.code, q + 2));
  }

  lemma FusedOthers(g: Gen, c: Combo, b: seq<byte>, op: Op, j: int)
    requires Encoded(g) && g.prev != ocNop && IsCombo(c) && g.prev == c.first
    requires Spells(g.names, g.values, c.second, b, op) && c.firstArgs < |g.code| && 0 <= j < |g.m| - 1
    ensures Slot(Fused(g, c, b, op), j)
  {
    var k := |g.m| - 1;
    FusedFirst(g, c, b, op);
    SlotSame(g, Fused(g, c, b, op), j);
  }

  lemma FusedHalves(g: Gen, c: Combo, b: seq<byte>, op: Op)
    requires Encoded(g) && g.prev != ocNop && c.firstArgs < |g.code| && |g.m| > 0 && !IsJump(op) && !IsJump(g.m[|g.m| - 1])
    ensures Halves(Fused(g, c, b, op))
  {
    var g1 := Fused(g, c, b, op);
    forall k | k in g1.fused ensures Half(g1, k) {
      if k < |g.m| { assert Half(g, k); }
    }
  }

  lemma FusedEncoded(g: Gen, c: Combo, b: seq<byte>, op: Op)
    requires Encoded(g) && g.prev != ocNop && IsCombo(c) && g.prev == c.first
    requires Spells(g.names, g.values, c.second, b, op) && c.firstArgs < |g.code|
    ensures Encoded(Fused(g, c, b, op)) && Grown(g, Fused(g, c, b, op))
  {
    var g1 := Fused(g, c, b, op);
    FusedSlot(g, c, b, op);
    FusedHalves(g, c, b, op);
    forall j | 0 <= j < |g1.m| ensures Slot(g1, j) {
      if j < |g.m| - 1 { FusedOthers(g, c, b, op, j); }
    }
  }
}
