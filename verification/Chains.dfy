/**
  The steps of the compiler on its bytes: an instruction is appended or fused, a
  jump is chained to the one before it that waits for the same label, and a label
  is placed by following the chain.  The relations between the states before and
  after are sealed; the lemmas here are all that the compiler needs of them.
  */
module Chains {
  import opened Ast
  import opened Ops
  import opened Bytes
  import opened Encoding
  import opened LayoutExpr
  import opened Seal

  /** A compilation step succeeds or panics. */
  datatype Compiled = Fine | Refused(why: string) {
    predicate IsFailure() { Refused? }
    function PropagateFailure(): Compiled { this }
  }

  // ---------------------------------------------------------------- appending

  /** How an instruction enters the code; h is the jump that a waiting one is chained to. */
  datatype How = Plainly | Waiting(h: int) | Backwards | Strayed

  /** The instruction as the bytes spell it: a jump by its operand. */
  function Relative(g: Gen, op: Op, how: How): Op {
    match how
    case Plainly => op
    case Waiting(h) => Aim(op, LabelOf(g, h))
    case Strayed => Aim(op, |g.code|)
    case Backwards => if IsJump(op) && 0 <= op.to < |g.pos| then Aim(op, g.pos[op.to] - |g.code| - 3) else op
  }

  ghost predicate Admits(g: Gen, oc: byte, b: seq<byte>, op: Op, how: How) {
    var all :=
      Spells(g.names, g.values, oc, b, Relative(g, op, how))
      && (how.Plainly? ==> !IsJump(op))
      && (how.Waiting? ==> IsJump(op) && -1 <= how.h < |g.m|)
      && (how.Strayed? ==> op == Jump(Nowhere))
      && (how.Backwards? ==> IsJump(op) && 0 <= op.to <= |g.m| && op.to !in g.fused && (op.to == |g.m| ==> op.to in g.marks));
    all
  }

  /** One more instruction, entered so. */
  ghost predicate Added(g: Gen, g1: Gen, op: Op, how: How) {
    var all :=
      Grown(g, g1) && g1.m == g.m + [op] && g1.names == g.names && g1.values == g.values
      && g1.links == (if how.Waiting? then g.links[|g.m| := how.h] else g.links)
      && (how.Backwards? && IsJump(op) ==> op.to in g1.marks)
      && g1.fused <= g.fused + {|g.m|} && (IsJump(op) ==> g1.fused == g.fused && |g1.code| == |g.code| + 3)
      && |g1.code| <= |g.code| + 3;
    all
  }

  /** No jump opcode is the second of a pair. */
  lemma JumpsAreNotFused(names: seq<string>, values: seq<Value>, oc: byte, b: seq<byte>, op: Op, c: Combo)
    requires IsCombo(c) && c.second == oc && Spells(names, values, oc, b, op)
    ensures !IsJump(op)
  {
  }

  lemma RelativeJump(g: Gen, op: Op, how: How)
    ensures IsJump(Relative(g, op, how)) == IsJump(op)
  {
  }

  lemma OnlyPlainIsFused(g: Gen, oc: byte, b: seq<byte>, op: Op, how: How, c: Combo)
    requires Admits(g, oc, b, op, how) && IsCombo(c) && c.second == oc
    ensures how.Plainly?
  {
    JumpsAreNotFused(g.names, g.values, oc, b, Relative(g, op, how), c);
    RelativeJump(g, op, how);
  }

  /** A jump is spelled with two operand bytes. */
  lemma JumpIsWide(names: seq<string>, values: seq<Value>, oc: byte, b: seq<byte>, op: Op)
    requires Spells(names, values, oc, b, op) && IsJump(op)
    ensures |b| == 2
  {
  }

  function Appended(g: Gen, oc: byte, b: seq<byte>, op: Op, how: How): Gen
  {
    match how
    case Waiting(h) => Pending(g, oc, b, op, h)
    case _ => if how.Backwards? && IsJump(op) then Backward(g, oc, b, op) else Plain(g, oc, b, op)
  }

  lemma AppendedEncoded(g: Gen, oc: byte, b: seq<byte>, op: Op, how: How)
    requires Encoded(g) && Admits(g, oc, b, op, how)
    ensures Encoded(Appended(g, oc, b, op, how)) && Added(g, Appended(g, oc, b, op, how), op, how)
  {
    var g1 := Appended(g, oc, b, op, how);
    RelativeJump(g, op, how);
    if IsJump(op) { JumpIsWide(g.names, g.values, oc, b, Relative(g, op, how)); }
    match how
    case Plainly => PlainEncoded(g, g1, oc, b, op);
    case Waiting(h) => PendingEncoded(g, g1, oc, b, op, h);
    case Strayed => StrayEncoded(g, g1, oc, b, op);
    case Backwards => BackwardEncoded(g, g1, oc, b, op);
  }

  lemma FusedAdded(g: Gen, oc: byte, b: seq<byte>, op: Op, how: How, c: Combo)
    requires Encoded(g) && Admits(g, oc, b, op, how)
    requires IsCombo(c) && c.second == oc && g.prev == c.first && g.prev != ocNop
    ensures c.firstArgs < |g.code|
    ensures Encoded(Fused(g, c, b, op)) && Added(g, Fused(g, c, b, op), op, how)
  {
    OnlyPlainIsFused(g, oc, b, op, how, c);
    FusedFirst(g, c, b, op);
    FusedEncoded(g, c, b, op);
  }

  // ------------------------------------------------------------------- chains

  /** The jumps that wait for one label, the latest last. */
  ghost predicate Chain(g: Gen, chain: seq<int>) {
    forall j :: 0 <= j < |chain| ==> OnChain(g, chain, j)
  }

  ghost predicate OnChain(g: Gen, chain: seq<int>, j: int)
    requires 0 <= j < |chain|
  {
    chain[j] in g.links && g.links[chain[j]] == Before(chain, j)
  }

  function Before(chain: seq<int>, j: int): int
    requires 0 <= j <= |chain|
  {
    if j == 0 then -1 else chain[j - 1]
  }

  function Head(chain: seq<int>): int { Before(chain, |chain|) }

  function Elems(chain: seq<int>): set<int> { set k | k in chain }

  lemma {:induction false} ChainRises(g: Gen, chain: seq<int>, a: int, b: int)
    requires Jumps(g) && Chain(g, chain) && 0 <= a < b < |chain|
    ensures chain[a] < chain[b]
    decreases b
  {
    assert OnChain(g, chain, b) && OnChain(g, chain, b - 1);
    if a < b - 1 { ChainRises(g, chain, a, b - 1); }
  }

  /** What a chained jump holds is the position of the one before it. */
  lemma LinkBytes(g: Gen, k: int)
    requires Encoded(g) && k in g.links
    ensures 0 <= g.pos[k] && g.pos[k] + 3 <= |g.code|
    ensures Int16(g.code[g.pos[k] + 1], g.code[g.pos[k] + 2]) == LabelOf(g, g.links[k])
  {
    var q := g.pos[k];
    JumpBytes(g, k);
    JumpParse(g.names, g.values, g.code[q], g.code[q + 1], g.code[q + 2]);
    AimTwice(g.m[k], Goes(g, k) - q - 3, 0);
    JumpAgain(g.code[q], Int16(g.code[q + 1], g.code[q + 2]), 0);
    JumpToGoes(g.code[q], Int16(g.code[q + 1], g.code[q + 2]));
  }

  lemma JumpToGoes(oc: byte, to: int)
    ensures JumpTo(oc, to).Some? ==> IsJump(JumpTo(oc, to).value) && JumpTo(oc, to).value.to == to
  {
  }

  /** Patching the latest jump of a chain leaves the chain of the others. */
  lemma ChainShorter(g: Gen, chain: seq<int>, g1: Gen)
    requires Jumps(g) && Chain(g, chain) && chain != []
    requires g1.links == g.links - {Head(chain)}
    ensures Chain(g1, chain[..|chain| - 1])
    ensures Head(chain) in g.links && g.links[Head(chain)] == Head(chain[..|chain| - 1])
  {
    var n := |chain| - 1;
    var rest := chain[..n];
    forall j | 0 <= j < n
      ensures OnChain(g1, rest, j)
    {
      assert OnChain(g, chain, j);
      ChainRises(g, chain, j, n);
      assert rest[j] == chain[j];
    }
    assert OnChain(g, chain, n);
  }

  /** The jumps on a chain go to instruction t. */
  ghost predicate AimedAt(g: Gen, chain: seq<int>, t: int) {
    forall k :: k in chain ==> 0 <= k < |g.m| && IsJump(g.m[k]) && g.m[k].to == t
  }

  /** The operand bytes of the jumps on a chain. */
  predicate OperandOf(pos: seq<int>, chain: seq<int>, q: int) {
    exists k :: k in chain && 0 <= k < |pos| && (q == pos[k] + 1 || q == pos[k] + 2)
  }

  ghost predicate SameElsewhere(g0: Gen, g: Gen, chain: seq<int>) {
    |g.code| == |g0.code|
    && forall q :: 0 <= q < |g.code| && !OperandOf(g0.pos, chain, q) ==> g.code[q] == g0.code[q]
  }

  /** g0 with the jumps chain[n..] patched. */
  ghost predicate Patching(g0: Gen, g: Gen, chain: seq<int>, n: int) {
    var sealed := 0 <= n <= |chain| && forall u: int {:trigger Open(u)} :: Open(u) ==> PatchingOpen(g0, g, chain, n);
    sealed
  }

  ghost predicate PatchingOpen(g0: Gen, g: Gen, chain: seq<int>, n: int)
    requires 0 <= n <= |chain|
  {
    var all :=
      Encoded(g) && Chain(g, chain[..n])
      && g == g0.(code := g.code, prev := ocNop, links := g0.links - Elems(chain[n..]), marks := g0.marks + {|g0.m|})
      && SameElsewhere(g0, g, chain);
    all
  }

  /** A label that is negative has no jumps. */
  lemma NoHead(g: Gen, chain: seq<int>)
    requires Encoded(g) && Chain(g, chain)
    ensures LabelOf(g, Head(chain)) >= 0 <==> chain != []
  {
    if chain != [] { assert OnChain(g, chain, |chain| - 1); }
  }

  lemma PatchDone(g0: Gen, g: Gen, chain: seq<int>, n: int)
    requires 0 <= n <= |chain| && Patching(g0, g, chain, n) && LabelOf(g0, Head(chain[..n])) < 0
    ensures n == 0
  {
    assert Open(0);
    NoHead(g, chain[..n]);
  }

  lemma PatchStart(g0: Gen, chain: seq<int>)
    requires Encoded(g0) && Chain(g0, chain)
    ensures Patching(g0, Marked(g0), chain, |chain|)
  {
    MarkedEncoded(g0);
    assert chain[..|chain|] == chain && Elems(chain[|chain|..]) == {};
    assert g0.links - {} == g0.links;
    forall j | 0 <= j < |chain| ensures OnChain(Marked(g0), chain, j) {
      assert OnChain(g0, chain, j);
    }
  }

  /** The jump to patch next, and what its operand says. */
  lemma PatchNext(g0: Gen, g: Gen, chain: seq<int>, n: int) returns (k: int)
    requires 0 <= n <= |chain| && Patching(g0, g, chain, n) && LabelOf(g0, Head(chain[..n])) >= 0
    ensures n > 0 && k == chain[n - 1] && k in g.links && Places(g) && 0 <= k < |g.m| && g.pos[k] == LabelOf(g0, Head(chain[..n]))
    ensures 0 <= g.pos[k] && g.pos[k] + 3 <= |g.code|
    ensures Int16(g.code[g.pos[k] + 1], g.code[g.pos[k] + 2]) == LabelOf(g0, Head(chain[..n - 1]))
    ensures |g.code| == |g0.code|
  {
    assert Open(0);
    NoHead(g, chain[..n]);
    k := chain[n - 1];
    assert OnChain(g, chain[..n], n - 1);
    LinkBytes(g, k);
    assert Before(chain[..n], n - 1) == Head(chain[..n - 1]);
  }

  lemma PatchStep(g0: Gen, g: Gen, chain: seq<int>, n: int, k: int)
    requires Patching(g0, g, chain, n) && 0 < n <= |chain| && k == chain[n - 1] && k in g.links && AimedAt(g0, chain, |g0.m|)
    requires Places(g) && 0 <= k < |g.m| && g.pos[k] + 3 <= |g.code| && IsInt16(|g.code| - (g.pos[k] + 3))
    ensures Patching(g0, Patched(g, k), chain, n - 1)
  {
    assert Open(0);
    var g1 := Patched(g, k);
    assert Head(chain[..n]) == k;
    PatchedEncoded(g, k);
    ChainShorter(g, chain[..n], g1);
    assert chain[..n][..n - 1] == chain[..n - 1];
    assert chain[n - 1..] == [k] + chain[n..];
    assert Elems(chain[n - 1..]) == Elems(chain[n..]) + {k};
    forall q | 0 <= q < |g1.code| && !OperandOf(g0.pos, chain, q) ensures g1.code[q] == g0.code[q] {
      assert k in chain;
    }
  }

  function Target(code: seq<byte>, i: int): int
    requires 0 <= i && i + 3 <= |code|
  {
    Int16(code[i + 1], code[i + 2])
  }

  /** Follows a chain of jumps, giving each the offset of the end of the code. */
  method PatchChain(code0: seq<byte>, lab: int, ghost g0: Gen, ghost chain: seq<int>)
    returns (r: Compiled, code: seq<byte>, ghost g: Gen)
    requires Encoded(g0) && g0.code == code0 && Chain(g0, chain) && lab == LabelOf(g0, Head(chain))
    requires AimedAt(g0, chain, |g0.m|)
    ensures |code| == |code0|
    ensures r.Fine? ==> g.code == code && Patching(g0, g, chain, 0)
    ensures r.Refused? ==> |code| > 32764
  {
    PatchStart(g0, chain);
    code, g := code0, Marked(g0);
    var i := lab;
    ghost var n := |chain|;
    assert chain[..n] == chain;
    while i >= 0
      invariant 0 <= n <= |chain| && Patching(g0, g, chain, n) && g.code == code && |code| == |code0| && i == LabelOf(g0, Head(chain[..n]))
      decreases n
    {
      ghost var k := PatchNext(g0, g, chain, n);
      var next := Target(code, i);
      var adr := |code| - (i + 3);
      if !IsInt16(adr) {
        return Refused("jump too far"), code, g;
      }
      PatchStep(g0, g, chain, n, k);
      code, g := PatchAt(code, i, adr), Patched(g, k);
      n := n - 1;
      i := next;
    }
    PatchDone(g0, g, chain, n);
    r := Fine;
  }

  /** b holds the operand of the jump oc. */
  lemma SpellJump(names: seq<string>, values: seq<Value>, oc: byte, lab: int, op: Op)
    requires IsJump(op) && JumpTo(oc, op.to) == Some(op) && IsInt16(lab)
    ensures Spells(names, values, oc, [Hi(lab), Lo(lab)], Aim(op, lab))
  {
    Int16RoundTrip(lab);
    JumpAgain(oc, op.to, lab);
    JumpIsNotBare(oc);
  }

  lemma JumpIsNotBare(oc: byte)
    requires JumpTo(oc, 0).Some?
    ensures Bare(oc).None? && !Short(oc) && Wide(oc) && oc != ocInt
  {
  }


  // -------------------------------------------------------- sealed relations

  /** The bytes spell a part of m, from its start. */
  ghost predicate Intact(m: seq<Op>, g: Gen) {
    var sealed := forall u: int {:trigger Open(u)} :: Open(u) ==> Encoded(g) && g.m <= m && Sized(m, g);
    sealed
  }

  /** The names, but for the parameters, and the values are those that m uses, each once. */
  ghost predicate Sized(m: seq<Op>, g: Gen) {
    var all := Listed(g.names, g.base, NamesIn(m)) && Listed(g.values, 0, ValuesIn(m)) && |g.code| <= 3 * |g.m|;
    all
  }

  ghost predicate Listed<T(!new)>(s: seq<T>, from: nat, used: set<T>) {
    from <= |s| && (forall i :: from <= i < |s| ==> s[i] in used) && (forall i, j :: from <= i < j < |s| ==> s[i] != s[j])
  }

  function NamesOf(op: Op): set<string> {
    match op
    case Load(x) => {x} case Store(x) => {x} case LoadStore(x, _, _) => {x}
    case _ => {}
  }

  function NamesIn(m: seq<Op>): set<string> {
    if m == [] then {} else NamesIn(m[..|m| - 1]) + NamesOf(m[|m| - 1])
  }

  function ValuesIn(m: seq<Op>): set<Value> {
    if m == [] then {}
    else ValuesIn(m[..|m| - 1]) + (if m[|m| - 1].Push? then {m[|m| - 1].v} else {})
  }

  lemma {:induction false} FewUsed(m: seq<Op>)
    ensures |NamesIn(m)| <= |m| && |ValuesIn(m)| <= |m|
  {
    if m != [] { FewUsed(m[..|m| - 1]); }
  }

  lemma {:induction false} UsedIn(m: seq<Op>, i: int, op: Op)
    requires OpAt(m, i, op)
    ensures NamesOf(op) <= NamesIn(m) && (op.Push? ==> op.v in ValuesIn(m))
  {
    if i < |m| - 1 { UsedIn(m[..|m| - 1], i, op); }
  }

  lemma {:induction false} ListedFew<T(!new)>(s: seq<T>, from: nat, used: set<T>)
    requires Listed(s, from, used)
    ensures |s| <= from + |used|
    decreases |s|
  {
    if |s| > from {
      var n := |s| - 1;
      ListedFew(s[..n], from, used - {s[n]});
    }
  }

  lemma ListedMore<T(!new)>(s: seq<T>, from: nat, used: set<T>, x: T)
    requires Listed(s, from, used) && x in used && x !in s
    ensures Listed(s + [x], from, used)
  {
  }

  /** A table or the code can be full only if there is much to compile. */
  lemma FullIsLarge(m: seq<Op>, g: Gen)
    requires Intact(m, g) && (|g.names| > 255 || |g.values| > 255 || |g.code| > 32764)
    ensures g.base + |m| > 255
  {
    assert Open(0);
    FewUsed(m);
    ListedFew(g.names, g.base, NamesIn(m));
    ListedFew(g.values, 0, ValuesIn(m));
  }

  /** From a to b code was added; nothing that waited has changed, and the jumps in x wait besides. */
  ghost predicate Waits(a: Gen, b: Gen, x: set<int>) {
    var sealed := forall u: int {:trigger Open(u)} :: Open(u) ==> WaitsOpen(a, b, x);
    sealed
  }

  ghost predicate WaitsOpen(a: Gen, b: Gen, x: set<int>) {
    Grown(a, b) && b.links.Keys == a.links.Keys + x && Keeps(a.links, b.links)
    && (forall k :: k in x ==> k >= |a.m|)
  }

  /** The jumps on the chain wait for instruction t, and lab is where the latest of them is. */
  ghost predicate Pends(g: Gen, chain: seq<int>, lab: int, t: int) {
    var sealed := forall u: int {:trigger Open(u)} :: Open(u) ==> PendsOpen(g, chain, lab, t);
    sealed
  }

  ghost predicate PendsOpen(g: Gen, chain: seq<int>, lab: int, t: int) {
    Chain(g, chain) && lab == LabelOf(g, Head(chain)) && AimedAt(g, chain, t)
  }

  /** Instruction t starts at the address lab, and jumps may go there. */
  ghost predicate Marks(g: Gen, t: int, lab: int) {
    var sealed := forall u: int {:trigger Open(u)} :: Open(u) ==> t in g.marks && 0 <= t < |g.pos| && g.pos[t] == lab;
    sealed
  }

  /** From a to b the label of a chain was placed at the end of the code. */
  ghost predicate Places1(a: Gen, b: Gen, chain: seq<int>) {
    var sealed := forall u: int {:trigger Open(u)} :: Open(u) ==> Patching(a, b, chain, 0);
    sealed
  }

  ghost predicate Keeps<K(!new), V(!new)>(a: map<K, V>, b: map<K, V>) {
    forall k :: k in a ==> k in b && b[k] == a[k]
  }

  lemma KeepsLess<K(!new), V(!new)>(a: map<K, V>, b: map<K, V>, x: set<K>, y: set<K>)
    requires Keeps(a, b) && b.Keys == a.Keys + x && x !! a.Keys && y <= x
    ensures Keeps(a, b - y) && (b - y).Keys == a.Keys + (x - y)
  {
  }

  lemma KeepsTrans<K(!new), V(!new)>(a: map<K, V>, b: map<K, V>, c: map<K, V>)
    requires Keeps(a, b) && Keeps(b, c)
    ensures Keeps(a, c)
  {
  }

  lemma KeepsMore<K(!new), V(!new)>(a: map<K, V>, k: K, v: V)
    requires k !in a
    ensures Keeps(a, a[k := v]) && a[k := v].Keys == a.Keys + {k}
  {
  }

  lemma IntactOpen(m: seq<Op>, g: Gen)
    ensures Intact(m, g) <==> Encoded(g) && g.m <= m && Sized(m, g)
  {
    assert Open(0);
  }

  lemma WaitsRefl(a: Gen)
    ensures Waits(a, a, {})
  {
  }

  lemma WaitsTrans(a: Gen, b: Gen, c: Gen, x: set<int>, y: set<int>)
    ensures Waits(a, b, x) && Waits(b, c, y) ==> Waits(a, c, x + y)
  {
    if Waits(a, b, x) && Waits(b, c, y) {
      assert Open(0);
      KeepsTrans(a.links, b.links, c.links);
    }
  }

  lemma Waits0(a: Gen, b: Gen, c: Gen, x: set<int>)
    ensures Waits(a, b, x) && Waits(b, c, {}) ==> Waits(a, c, x)
    ensures Waits(a, b, {}) && Waits(b, c, x) ==> Waits(a, c, x)
  {
    WaitsTrans(a, b, c, x, {});
    WaitsTrans(a, b, c, {}, x);
    assert x + {} == x && {} + x == x;
  }

  /** Nothing waits once all that waited has been placed. */
  lemma WaitsNone(a: Gen, b: Gen)
    requires Waits(a, b, {}) && a.links == map[]
    ensures b.links == map[]
  {
    assert Open(0);
    assert b.links.Keys == {};
  }

  lemma WaitsNames(a: Gen, b: Gen, x: set<int>)
    requires Waits(a, b, x)
    ensures a.names <= b.names && a.values <= b.values && (Distinct(a.names) ==> Distinct(b.names))
  {
    assert Open(0);
  }

  /** From a to b every jump that waited still waits, but for those in gone. */
  ghost predicate Passes(a: Gen, b: Gen, gone: set<int>) {
    var sealed := forall u: int {:trigger Open(u)} :: Open(u) ==> Grown(a, b) && KeepsBut(a.links, b.links, gone);
    sealed
  }

  ghost predicate KeepsBut<K(!new), V(!new)>(a: map<K, V>, b: map<K, V>, gone: set<K>) {
    forall k :: k in a && k !in gone ==> k in b && b[k] == a[k]
  }

  lemma KeepsButTrans<K(!new), V(!new)>(a: map<K, V>, b: map<K, V>, c: map<K, V>, x: set<K>, y: set<K>)
    requires KeepsBut(a, b, x) && KeepsBut(b, c, y)
    ensures KeepsBut(a, c, x + y)
  {
  }

  lemma KeepsButLess<K(!new), V(!new)>(a: map<K, V>, x: set<K>)
    ensures KeepsBut(a, a - x, x)
  {
  }

  lemma WaitsPasses(a: Gen, b: Gen, x: set<int>)
    ensures Waits(a, b, x) ==> Passes(a, b, {})
  {
    if Waits(a, b, x) { assert Open(0); }
  }

  lemma PlacesPasses(a: Gen, b: Gen, chain: seq<int>)
    ensures Places1(a, b, chain) ==> Passes(a, b, Elems(chain))
  {
    if Places1(a, b, chain) {
      assert Open(0);
      assert chain[0..] == chain;
      KeepsButLess(a.links, Elems(chain));
    }
  }

  lemma PassTrans(a: Gen, b: Gen, c: Gen, x: set<int>, y: set<int>)
    ensures Passes(a, b, x) && Passes(b, c, y) ==> Passes(a, c, x + y)
  {
    if Passes(a, b, x) && Passes(b, c, y) {
      assert Open(0);
      KeepsButTrans(a.links, b.links, c.links, x, y);
    }
  }

  /** A chain goes on waiting while other code is added and other labels are placed. */
  lemma PendsPass(m: seq<Op>, a: Gen, b: Gen, gone: set<int>, chain: seq<int>, lab: int, t: int)
    requires Elems(chain) !! gone
    ensures Intact(m, a) && Passes(a, b, gone) && Pends(a, chain, lab, t) ==> Pends(b, chain, lab, t)
  {
    if Intact(m, a) && Passes(a, b, gone) && Pends(a, chain, lab, t) {
      assert Open(0);
      forall j | 0 <= j < |chain| ensures OnChain(b, chain, j) {
        assert OnChain(a, chain, j);
        var k := chain[j];
        assert k in Elems(chain) && k in a.links && k !in gone;
        assert k in b.links && b.links[k] == a.links[k];
      }
      if chain != [] { assert OnChain(a, chain, |chain| - 1); }
    }
  }

  lemma PendsOn(m: seq<Op>, a: Gen, b: Gen, x: set<int>, chain: seq<int>, lab: int, t: int)
    ensures Intact(m, a) && Waits(a, b, x) && Pends(a, chain, lab, t) ==> Pends(b, chain, lab, t)
  {
    WaitsPasses(a, b, x);
    PendsPass(m, a, b, {}, chain, lab, t);
  }

  lemma MarksPass(m: seq<Op>, a: Gen, b: Gen, gone: set<int>, t: int, lab: int)
    ensures Intact(m, a) && Passes(a, b, gone) && Marks(a, t, lab) ==> Marks(b, t, lab)
  {
    if Intact(m, a) && Passes(a, b, gone) && Marks(a, t, lab) { assert Open(0); }
  }

  lemma NonePend(g: Gen, t: int)
    ensures Pends(g, [], -1, t)
  {
  }

  lemma PendsRange(m: seq<Op>, g: Gen, chain: seq<int>, lab: int, t: int)
    requires Intact(m, g) && Pends(g, chain, lab, t)
    ensures -1 <= Head(chain) < |g.m| && lab == LabelOf(g, Head(chain)) && -1 <= lab < |g.code|
    ensures Under(Elems(chain), |g.m|)
  {
    assert Open(0);
    if chain != [] {
      assert OnChain(g, chain, |chain| - 1);
      JumpBytes(g, Head(chain));
    }
  }

  /** One more jump on the chain. */
  lemma PendsMore(m: seq<Op>, a: Gen, b: Gen, op: Op, chain: seq<int>, lab: int)
    requires Intact(m, a) && Intact(m, b) && IsJump(op) && Pends(a, chain, lab, op.to)
    requires Added(a, b, op, Waiting(Head(chain)))
    ensures Pends(b, chain + [|a.m|], |a.code|, op.to) && Waits(a, b, {|a.m|})
  {
    assert Open(0);
    var more := chain + [|a.m|];
    assert |a.m| !in a.links;
    KeepsMore(a.links, |a.m|, Head(chain));
    forall j | 0 <= j < |more| ensures OnChain(b, more, j) {
      if j < |chain| { assert OnChain(a, chain, j); }
    }
    forall k | k in more ensures 0 <= k < |b.m| && IsJump(b.m[k]) && b.m[k].to == op.to {
      if k in chain { assert b.m[k] == a.m[k]; }
    }
  }

  lemma AddedWaits(a: Gen, b: Gen, op: Op, how: How)
    requires Added(a, b, op, how) && !how.Waiting?
    ensures Waits(a, b, {})
  {
  }

  /** Placing the label takes its jumps off the list. */
  lemma WaitsPlaced(m: seq<Op>, a: Gen, b: Gen, c: Gen, x: set<int>, chain: seq<int>)
    requires Intact(m, a) && Waits(a, b, x) && Places1(b, c, chain) && Elems(chain) <= x
    ensures Waits(a, c, x - Elems(chain))
  {
    assert Open(0);
    assert chain[0..] == chain;
    assert x !! a.links.Keys by {
      forall k | k in a.links.Keys ensures k !in x { assert k in a.links; }
    }
    KeepsLess(a.links, b.links, x, Elems(chain));
  }

  /** All elements are less than n. */
  ghost predicate Under(x: set<int>, n: int) { forall k :: k in x ==> k < n }

  ghost predicate NotUnder(x: set<int>, n: int) { forall k :: k in x ==> k >= n }

  lemma NewAbove(a: Gen, b: Gen, x: set<int>)
    requires Waits(a, b, x)
    ensures NotUnder(x, |a.m|)
  {
    assert Open(0);
  }

  lemma Apart(x: set<int>, y: set<int>, n: int)
    requires Under(x, n) && NotUnder(y, n)
    ensures x !! y && n !in x && forall k :: k < n ==> k !in y
  {
    forall k | k in x ensures k !in y {
      assert k < n;
    }
    Disjoint(x, y);
  }

  lemma Disjoint<T(!new)>(x: set<T>, y: set<T>)
    requires forall k :: k in x ==> k !in y
    ensures x !! y
  {
  }

  /** A jump may go back to instruction t, which starts at lab. */
  ghost predicate Lands(g: Gen, t: int, lab: int) {
    var sealed := forall u: int {:trigger Open(u)} :: Open(u) ==> LandsOpen(g, t, lab);
    sealed
  }

  ghost predicate LandsOpen(g: Gen, t: int, lab: int) {
    0 <= t <= |g.m| && |g.pos| == |g.m| + 1 && g.pos[t] == lab && t !in g.fused && (t == |g.m| ==> t in g.marks)
  }

  lemma MarksLands(m: seq<Op>, g: Gen, t: int, lab: int)
    requires Intact(m, g) && Marks(g, t, lab)
    ensures Lands(g, t, lab) && 0 <= t <= |g.m| && 0 <= lab && (lab < |g.code| <==> t < |g.m|)
  {
    assert Open(0);
    if t < |g.m| { assert Slot(g, t); }
  }

  /** A jump that waits is itself a place to jump to. */
  lemma PendsLands(m: seq<Op>, g: Gen, k: int, lab: int, t: int)
    requires Intact(m, g) && Pends(g, [k], lab, t)
    ensures Lands(g, k, lab) && 0 <= lab < |g.code|
  {
    assert Open(0);
    assert OnChain(g, [k], 0);
    JumpBytes(g, k);
  }

  /** What a backward jump needs. */
  lemma LandsAdmits(m: seq<Op>, g: Gen, oc: byte, op: Op, lab: int)
    requires Intact(m, g) && IsJump(op) && JumpTo(oc, op.to) == Some(op) && Lands(g, op.to, lab)
    ensures Relative(g, op, Backwards) == Aim(op, lab - |g.code| - 3)
    ensures 0 <= op.to <= |g.m| && op.to !in g.fused && (op.to == |g.m| ==> op.to in g.marks) && 0 <= lab <= |g.code|
  {
    assert Open(0);
  }

  /** One more jump of a chain has been added. */
  lemma WaitsMore(a: Gen, b: Gen, c: Gen, chain: seq<int>, k: int)
    ensures Waits(a, b, Elems(chain)) && Waits(b, c, {k}) ==> Waits(a, c, Elems(chain + [k]))
  {
    WaitsTrans(a, b, c, Elems(chain), {k});
    ElemsMore(chain, k);
  }

  lemma ElemsMore(chain: seq<int>, k: int)
    ensures Elems(chain + [k]) == Elems(chain) + {k} && Elems([]) == {} && Elems([k]) == {k}
  {
  }
}
