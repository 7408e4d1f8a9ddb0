/** Copy-on-write of objects: lazy copies share the list and the named members of their
    original, with a counter, until somebody writes. Threads work on different objects at
    the same time, each step below being one access to memory that others may see.
 */
module CopyOnWrite {
  import opened Seal

  datatype Id = Id(n: int)    // an object
  datatype Ref = Ref(n: int)  // a piece of memory that objects can share
  type Value = int
  type Key = string

  /** Where an object is between the accesses that a copy or a mutation consists of. */
  datatype Phase =
    | Idle
    | Pending(from: Id, n: nat)  // the copy has been counted but not made
    | Sharing                    // the counter was seen to be positive
    | ListCloned
    | NamedCloned
    | Dropped                    // the counter has been decremented
    | Writing                    // may be changed in place

  /** `list` is the memory of the list, of which the object uses what is from `off` on. */
  datatype Obj = Obj(list: Ref, off: nat, named: Ref, count: Ref, phase: Phase)

  datatype State = State(
    objs: map<Id, Obj>,
    lists: map<Ref, seq<Value>>,
    nameds: map<Ref, map<Key, Value>>,
    counts: map<Ref, int>)

  const START := State(map[], map[], map[], map[])

  datatype Contents = Contents(list: seq<Value>, named: map<Key, Value>)

  datatype Step =
    | Create(o: Id, list: Ref, named: Ref, count: Ref)
    | StartCopy(o: Id, from: Id, n: nat)
    | FinishCopy(o: Id, ref: Ref)
    | StartMutate(o: Id)
    | CloneList(o: Id, ref: Ref)
    | CloneNamed(o: Id, ref: Ref)
    | Drop(o: Id)
    | Renew(o: Id, ref: Ref)
    | Write(o: Id, values: Contents)
    | EndMutate(o: Id)

  // ----- steps --------------------------------------------------------------------------------

  predicate Is(s: State, o: Id, phase: Phase) {
    o in s.objs && s.objs[o].phase == phase
  }

  /** Somebody is copying `o`, and holds its read lock. */
  ghost predicate Copied(s: State, o: Id) {
    exists k | k in s.objs :: s.objs[k].phase.Pending? && s.objs[k].phase.from == o
  }

  /** The step can be taken: memory that is new is new, and locks are respected. */
  ghost predicate Enabled(s: State, e: Step) {
    match e
    case Create(o, list, named, count) => o !in s.objs && list !in s.lists && named !in s.nameds && count !in s.counts
    case StartCopy(o, from, _) => o !in s.objs && Is(s, from, Idle)
    case FinishCopy(o, ref) => o in s.objs && s.objs[o].phase.Pending? && ref !in s.lists
    case StartMutate(o) => Is(s, o, Idle) && !Copied(s, o)
    case CloneList(o, ref) => Is(s, o, Sharing) && ref !in s.lists
    case CloneNamed(o, ref) => Is(s, o, ListCloned) && ref !in s.nameds
    case Drop(o) => Is(s, o, NamedCloned)
    case Renew(o, ref) => Is(s, o, Dropped) && ref !in s.counts
    case Write(o, _) => Is(s, o, Writing)
    case EndMutate(o) => Is(s, o, Writing)
  }

  function Put(s: State, o: Id, x: Obj): State {
    s.(objs := s.objs[o := x])
  }

  /** The list and the named members of an object. */
  function View(s: State, o: Id): Contents
    requires Sited(s, o)
  {
    var x := s.objs[o];
    Contents(s.lists[x.list][x.off..], s.nameds[x.named])
  }

  predicate Sited(s: State, o: Id) {
    && o in s.objs && var x := s.objs[o];
    && !x.phase.Pending? && x.list in s.lists && x.named in s.nameds && x.off <= |s.lists[x.list]|
  }

  ghost function Take(s: State, e: Step): State
    requires Inv(s) && Enabled(s, e)
  {
    match e
    case Create(o, list, named, count) =>
      Put(s, o, Obj(list, 0, named, count, Idle))
        .(lists := s.lists[list := []], nameds := s.nameds[named := map[]], counts := s.counts[count := 0])
    case StartCopy(o, from, n) =>
      HasCount(s, from);
      var c := s.objs[from].count;
      Put(s, o, s.objs[from].(phase := Pending(from, n))).(counts := s.counts[c := s.counts[c] + 1])
    case FinishCopy(o, ref) =>
      HasPlace(s, o);
      HasPlace(s, s.objs[o].phase.from);
      var x := s.objs[s.objs[o].phase.from];
      var n := s.objs[o].phase.n;
      if n < |s.lists[x.list]| - x.off then Put(s, o, x.(off := x.off + n))
      else Put(s, o, x.(list := ref, off := 0)).(lists := s.lists[ref := []])
    case StartMutate(o) =>
      HasCount(s, o);
      var x := s.objs[o];
      Put(s, o, x.(phase := if s.counts[x.count] > 0 then Sharing else Writing))
    case CloneList(o, ref) =>
      HasPlace(s, o);
      var x := s.objs[o];
      Put(s, o, x.(list := ref, off := 0, phase := ListCloned)).(lists := s.lists[ref := s.lists[x.list][x.off..]])
    case CloneNamed(o, ref) =>
      HasPlace(s, o);
      var x := s.objs[o];
      Put(s, o, x.(named := ref, phase := NamedCloned)).(nameds := s.nameds[ref := s.nameds[x.named]])
    case Drop(o) =>
      HasCount(s, o);
      var x := s.objs[o];
      Put(s, o, x.(phase := Dropped)).(counts := s.counts[x.count := s.counts[x.count] - 1])
    case Renew(o, ref) =>
      var x := s.objs[o];
      Put(s, o, x.(count := ref, phase := Writing)).(counts := s.counts[ref := 0])
    case Write(o, values) =>
      HasPlace(s, o);
      var x := s.objs[o];
      s.(lists := s.lists[x.list := s.lists[x.list][..x.off] + values.list], nameds := s.nameds[x.named := values.named])
    case EndMutate(o) => Put(s, o, s.objs[o].(phase := Idle))
  }

  // ----- the invariant --------------------------------------------------------------------------

  /** The objects that a counter stands for. */
  ghost function Attached(s: State, c: Ref): set<Id> {
    set o | o in s.objs && s.objs[o].count == c && s.objs[o].phase != Dropped
  }

  /** Whether the object may still share its list, or its named members. */
  predicate MayShareList(x: Obj) { !x.phase.ListCloned? && MayShareNamed(x) }

  predicate MayShareNamed(x: Obj) { !x.phase.NamedCloned? && !x.phase.Dropped? }

  /** A counter stands for one object more than it says, at most. */
  ghost predicate Counted(s: State) {
    var sealed := forall u: int {:trigger Open(u)} :: Open(u) ==>
      && (forall o | o in s.objs :: s.objs[o].count in s.counts)
      && (forall c | c in s.counts :: |Attached(s, c)| <= s.counts[c] + 1);
    sealed
  }

  /** An object that is being copied does not change. */
  ghost predicate Backed(s: State, o: Id)
    requires o in s.objs
  {
    var x := s.objs[o];
    x.phase.Pending? ==> Is(s, x.phase.from, Idle) && s.objs[x.phase.from].count == x.count
  }

  ghost predicate Placed(s: State) {
    var sealed := forall u: int {:trigger Unfold(u)} :: Unfold(u) ==>
      && (forall o | o in s.objs && !s.objs[o].phase.Pending? :: Sited(s, o))
      && (forall o | o in s.objs :: Backed(s, o));
    sealed
  }

  /** Objects that share memory have the same counter. */
  ghost predicate Grouped(s: State) {
    var sealed := forall u: int {:trigger Look(u)} :: Look(u) ==>
      forall o, p | o in s.objs && p in s.objs && o != p :: Group(s.objs[o], s.objs[p]);
    sealed
  }

  predicate Group(x: Obj, y: Obj) {
    x.phase.Pending? || y.phase.Pending? || (
      && (x.list == y.list ==> x.count == y.count && MayShareList(x) && MayShareList(y))
      && (x.named == y.named ==> x.count == y.count && MayShareNamed(x) && MayShareNamed(y)))
  }

  /** An object being changed in place is the only one its counter stands for. */
  ghost predicate Alone(s: State) {
    var sealed := forall u: int {:trigger Look(u)} :: Look(u) ==>
      forall o | Is(s, o, Writing) :: Attached(s, s.objs[o].count) == {o};
    sealed
  }

  ghost predicate Inv(s: State) {
    var all := Counted(s) && Placed(s) && Grouped(s) && Alone(s);
    all
  }

  // What the invariant says of one object or two.

  lemma HasCount(s: State, o: Id)
    ensures Counted(s) && o in s.objs ==> s.objs[o].count in s.counts
  {
    if Counted(s) { assert Open(0); }
  }

  lemma HasPlace(s: State, o: Id)
    ensures Placed(s) && o in s.objs && !s.objs[o].phase.Pending? ==> Sited(s, o)
    ensures Placed(s) && o in s.objs ==> Backed(s, o)
  {
    if Placed(s) { assert Unfold(0); }
  }

  lemma HasGroup(s: State, o: Id, p: Id)
    ensures Grouped(s) && o in s.objs && p in s.objs && o != p ==> Group(s.objs[o], s.objs[p])
  {
    if Grouped(s) { assert Look(0); }
  }

  /** Nobody writes who is counted together with another. */
  lemma NoWriterWith(s: State, o: Id, p: Id)
    ensures Alone(s) && o in s.objs && s.objs[o].phase != Dropped && p != o && Is(s, p, Writing) ==> s.objs[p].count != s.objs[o].count
  {
    if Alone(s) && o in s.objs && s.objs[o].phase != Dropped && p != o && Is(s, p, Writing) {
      assert Look(0);
      assert o !in Attached(s, s.objs[p].count);
    }
  }

  // ----- the number of objects a counter stands for -----------------------------------------------

  /** Object `o` is now `x`; what c stands for changes by that object alone. */
  lemma AttachedPut(s: State, s': State, o: Id, x: Obj, c: Ref)
    requires s'.objs == s.objs[o := x]
    ensures Attached(s', c) == Attached(s, c) - {o} + if x.count == c && x.phase != Dropped then {o} else {}
  {
  }

  function One(b: bool): int { if b then 1 else 0 }

  lemma AttachedSize(s: State, s': State, o: Id, x: Obj, c: Ref)
    requires s'.objs == s.objs[o := x]
    ensures |Attached(s', c)| == |Attached(s, c)| - One(o in Attached(s, c)) + One(x.count == c && x.phase != Dropped)
  {
    AttachedPut(s, s', o, x, c);
    MinusOne(Attached(s, c), o);
  }

  lemma MinusOne<T>(a: set<T>, x: T)
    ensures |a - {x}| == |a| - One(x in a) && |a - {x} + {x}| == |a - {x}| + 1
  {
    if x in a { assert a == a - {x} + {x}; } else { assert a - {x} == a; }
  }

  /** The counters keep up with what becomes of object `o`. */
  ghost predicate KeepsUp(s: State, s': State, o: Id, x: Obj) {
    && x.count in s'.counts && (forall c | c in s.counts :: c in s'.counts)
    && (forall c | c in s.counts :: s'.counts[c] >= s.counts[c] - One(o in Attached(s, c)) + One(x.count == c && x.phase != Dropped))
    && (forall c | c in s'.counts && c !in s.counts :: s'.counts[c] >= 0)
  }

  lemma CountedPut(s: State, s': State, o: Id, x: Obj)
    requires Counted(s) && s'.objs == s.objs[o := x] && KeepsUp(s, s', o, x)
    ensures Counted(s')
  {
    assert Open(0);
    forall c | c in s'.counts ensures |Attached(s', c)| <= s'.counts[c] + 1 {
      AttachedSize(s, s', o, x, c);
      if c !in s.counts { NoneAttached(s, c); }
    }
  }

  /** The object stays with its counter. */
  lemma CountedStays(s: State, s': State, o: Id, x: Obj)
    requires Counted(s) && s'.objs == s.objs[o := x] && s'.counts == s.counts
    requires o in s.objs && s.objs[o].phase != Dropped && x.count == s.objs[o].count
    ensures Counted(s')
  {
    HasCount(s, o);
    CountedPut(s, s', o, x);
  }

  lemma NoneAttached(s: State, c: Ref)
    requires Counted(s) && c !in s.counts
    ensures Attached(s, c) == {}
  {
    assert Open(0);
  }

  /** A counter that is not positive stands for one object at most. */
  lemma OnlyOne(s: State, o: Id)
    requires Counted(s) && o in s.objs && s.objs[o].phase != Dropped && s.objs[o].count in s.counts && s.counts[s.objs[o].count] <= 0
    ensures Attached(s, s.objs[o].count) == {o}
  {
    assert Open(0);
    Single(Attached(s, s.objs[o].count), o);
  }

  lemma Single<T>(a: set<T>, x: T)
    requires x in a && |a| <= 1
    ensures a == {x}
  {
    MinusOne(a, x);
    assert a - {x} == {};
    assert a == a - {x} + {x};
  }

  // ----- what every step keeps --------------------------------------------------------------------

  lemma GroupedPut(s: State, s': State, o: Id, x: Obj)
    requires Grouped(s) && s'.objs == s.objs[o := x]
    requires forall p | p in s.objs && p != o :: Group(x, s.objs[p])
    ensures Grouped(s')
  {
    assert Look(0);
    forall a, b | a in s'.objs && b in s'.objs && a != b ensures Group(s'.objs[a], s'.objs[b]) {
      if a != o && b != o { assert Group(s.objs[a], s.objs[b]); }
      else if a == o { assert Group(x, s.objs[b]); }
      else { assert Group(x, s.objs[a]); }
    }
  }

  /** The object shares no more than it did. */
  lemma GroupedStays(s: State, s': State, o: Id, x: Obj)
    requires Grouped(s) && s'.objs == s.objs[o := x] && o in s.objs && !s.objs[o].phase.Pending?
    requires x.list == s.objs[o].list && x.named == s.objs[o].named && x.count == s.objs[o].count
    requires MayShareList(s.objs[o]) ==> MayShareList(x)
    requires MayShareNamed(s.objs[o]) ==> MayShareNamed(x)
    ensures Grouped(s')
  {
    forall p | p in s.objs && p != o ensures Group(x, s.objs[p]) { HasGroup(s, o, p); }
    GroupedPut(s, s', o, x);
  }

  /** Memory is only added to. */
  ghost predicate Extends(s: State, s': State) {
    && (forall r | r in s.lists :: r in s'.lists && s'.lists[r] == s.lists[r])
    && (forall r | r in s.nameds :: r in s'.nameds && s'.nameds[r] == s.nameds[r])
  }

  lemma PlacedPut(s: State, s': State, o: Id, x: Obj)
    requires Placed(s) && s'.objs == s.objs[o := x] && Extends(s, s')
    requires !x.phase.Pending? ==> Sited(s', o)
    requires x.phase.Pending? ==> x.phase.from != o && Is(s, x.phase.from, Idle) && s.objs[x.phase.from].count == x.count
    requires Copied(s, o) ==> x.phase == Idle && o in s.objs && x.count == s.objs[o].count
    ensures Placed(s')
  {
    assert Unfold(0);
    forall p | p in s'.objs && !s'.objs[p].phase.Pending? ensures Sited(s', p) {
      if p != o { assert Sited(s, p); }
    }
    forall p | p in s'.objs ensures Backed(s', p) {
      if p != o { assert Backed(s, p); }
    }
  }

  lemma NotCopied(s: State, o: Id)
    requires Placed(s) && !Is(s, o, Idle)
    ensures !Copied(s, o)
  {
    if Copied(s, o) {
      var k :| k in s.objs && s.objs[k].phase.Pending? && s.objs[k].phase.from == o;
      HasPlace(s, k);
    }
  }

  /** Writers other than `o` are still alone if `o` has not joined their counter. */
  lemma AlonePut(s: State, s': State, o: Id, x: Obj)
    requires Alone(s) && s'.objs == s.objs[o := x]
    requires x.phase == Writing ==> Attached(s', x.count) == {o}
    requires forall p | Is(s, p, Writing) && p != o :: x.phase == Dropped || s.objs[p].count != x.count
    ensures Alone(s')
  {
    forall p | Is(s', p, Writing) ensures Attached(s', s'.objs[p].count) == {p} {
      if p != o {
        assert Look(0);
        AttachedPut(s, s', o, x, s.objs[p].count);
        assert o !in Attached(s, s.objs[p].count);
      }
    }
  }

  /** The object stays with its counter. */
  lemma AloneStays(s: State, s': State, o: Id, x: Obj)
    requires Alone(s) && s'.objs == s.objs[o := x] && o in s.objs && s.objs[o].phase != Dropped && x.count == s.objs[o].count
    requires x.phase == Writing ==> Attached(s', x.count) == {o}
    ensures Alone(s')
  {
    forall p | Is(s, p, Writing) && p != o ensures s.objs[p].count != x.count { NoWriterWith(s, o, p); }
    AlonePut(s, s', o, x);
  }

  lemma CreateKeeps(s: State, e: Step, s': State)
    requires Inv(s) && e.Create? && Enabled(s, e) && s' == Take(s, e)
    ensures Inv(s')
  {
    var x := s'.objs[e.o];
    CountedPut(s, s', e.o, x);
    forall p | p in s.objs && p != e.o ensures Group(x, s.objs[p]) { HasPlace(s, p); }
    GroupedPut(s, s', e.o, x);
    NotCopied(s, e.o);
    PlacedPut(s, s', e.o, x);
    forall p | Is(s, p, Writing) ensures s.objs[p].count != x.count { HasCount(s, p); }
    AlonePut(s, s', e.o, x);
  }

  lemma StartCopyKeeps(s: State, e: Step, s': State)
    requires Inv(s) && e.StartCopy? && Enabled(s, e) && s' == Take(s, e)
    ensures Inv(s')
  {
    var x := s'.objs[e.o];
    HasCount(s, e.from);
    assert forall c :: c in s'.counts <==> c in s.counts;
    CountedPut(s, s', e.o, x);
    GroupedPut(s, s', e.o, x);
    NotCopied(s, e.o);
    PlacedPut(s, s', e.o, x);
    forall p | Is(s, p, Writing) ensures s.objs[p].count != x.count { NoWriterWith(s, e.from, p); }
    AlonePut(s, s', e.o, x);
  }

  lemma FinishCopyKeeps(s: State, e: Step, s': State)
    requires Inv(s) && e.FinishCopy? && Enabled(s, e) && s' == Take(s, e)
    ensures Inv(s')
  {
    var o, x := e.o, s'.objs[e.o];
    var from := s.objs[o].phase.from;
    HasPlace(s, o);
    HasPlace(s, from);
    CountedStays(s, s', o, x);
    forall p | p in s.objs && p != o ensures Group(x, s.objs[p]) {
      HasPlace(s, p);
      HasGroup(s, from, p);
    }
    GroupedPut(s, s', o, x);
    NotCopied(s, o);
    PlacedPut(s, s', o, x);
    AloneStays(s, s', o, x);
  }

  lemma StartMutateKeeps(s: State, e: Step, s': State)
    requires Inv(s) && (e.StartMutate? || e.EndMutate?) && Enabled(s, e) && s' == Take(s, e)
    ensures Inv(s')
  {
    var o, x := e.o, s'.objs[e.o];
    HasPlace(s, o);
    HasCount(s, o);
    CountedStays(s, s', o, x);
    GroupedStays(s, s', o, x);
    if e.EndMutate? { NotCopied(s, o); }
    PlacedPut(s, s', o, x);
    if x.phase == Writing {
      OnlyOne(s, o);
      AttachedPut(s, s', o, x, x.count);
    }
    AloneStays(s, s', o, x);
  }

  lemma CloneKeeps(s: State, e: Step, s': State)
    requires Inv(s) && (e.CloneList? || e.CloneNamed?) && Enabled(s, e) && s' == Take(s, e)
    ensures Inv(s')
  {
    var o, x := e.o, s'.objs[e.o];
    HasPlace(s, o);
    CountedStays(s, s', o, x);
    forall p | p in s.objs && p != o ensures Group(x, s.objs[p]) {
      HasGroup(s, o, p);
      HasPlace(s, p);
    }
    GroupedPut(s, s', o, x);
    NotCopied(s, o);
    PlacedPut(s, s', o, x);
    AloneStays(s, s', o, x);
  }

  lemma DropKeeps(s: State, e: Step, s': State)
    requires Inv(s) && e.Drop? && Enabled(s, e) && s' == Take(s, e)
    ensures Inv(s')
  {
    var o, x := e.o, s'.objs[e.o];
    HasPlace(s, o);
    HasCount(s, o);
    CountedPut(s, s', o, x);
    GroupedStays(s, s', o, x);
    NotCopied(s, o);
    PlacedPut(s, s', o, x);
    AlonePut(s, s', o, x);
  }

  lemma RenewKeeps(s: State, e: Step, s': State)
    requires Inv(s) && e.Renew? && Enabled(s, e) && s' == Take(s, e)
    ensures Inv(s')
  {
    var o, x := e.o, s'.objs[e.o];
    HasPlace(s, o);
    CountedPut(s, s', o, x);
    forall p | p in s.objs && p != o ensures Group(x, s.objs[p]) { HasGroup(s, o, p); }
    GroupedPut(s, s', o, x);
    NotCopied(s, o);
    PlacedPut(s, s', o, x);
    AttachedPut(s, s', o, x, e.ref);
    NoneAttached(s, e.ref);
    forall p | Is(s, p, Writing) && p != o ensures s.objs[p].count != x.count { HasCount(s, p); }
    AlonePut(s, s', o, x);
  }

  /** Writing in place touches memory that nobody else uses. */
  lemma WritesAlone(s: State, o: Id, p: Id)
    requires Inv(s) && Is(s, o, Writing) && p in s.objs && p != o && !s.objs[p].phase.Pending?
    ensures s.objs[p].list != s.objs[o].list && s.objs[p].named != s.objs[o].named
  {
    HasGroup(s, o, p);
    NoWriterWith(s, p, o);
  }

  lemma WriteKeeps(s: State, e: Step, s': State)
    requires Inv(s) && e.Write? && Enabled(s, e) && s' == Take(s, e)
    ensures Inv(s')
  {
    var o, x := e.o, s.objs[e.o];
    assert s'.objs == s.objs[o := x];
    HasPlace(s, o);
    CountedStays(s, s', o, x);
    GroupedStays(s, s', o, x);
    forall p | p in s'.objs ensures Backed(s', p) && (!s'.objs[p].phase.Pending? ==> Sited(s', p)) {
      HasPlace(s, p);
      if p != o && !s.objs[p].phase.Pending? { WritesAlone(s, o, p); }
    }
    assert Placed(s');
    assert Alone(s') by {
      forall p | Is(s', p, Writing) ensures Attached(s', s'.objs[p].count) == {p} {
        assert Look(0);
        AttachedPut(s, s', o, x, s.objs[p].count);
      }
    }
  }

  lemma TakeKeeps(s: State, e: Step, s': State)
    requires Inv(s) && Enabled(s, e) && s' == Take(s, e)
    ensures Inv(s')
  {
    match e
    case Create(_, _, _, _) => CreateKeeps(s, e, s');
    case StartCopy(_, _, _) => StartCopyKeeps(s, e, s');
    case FinishCopy(_, _) => FinishCopyKeeps(s, e, s');
    case CloneList(_, _) => CloneKeeps(s, e, s');
    case CloneNamed(_, _) => CloneKeeps(s, e, s');
    case Drop(_) => DropKeeps(s, e, s');
    case Renew(_, _) => RenewKeeps(s, e, s');
    case Write(_, _) => WriteKeeps(s, e, s');
    case _ => StartMutateKeeps(s, e, s');
  }

  // ----- value semantics -----------------------------------------------------------------------------

  /** What the step should do to the values of the objects, were nothing shared. */
  function Ideal(v: map<Id, Contents>, s: State, e: Step): map<Id, Contents> {
    match e
    case Create(o, _, _, _) => v[o := Contents([], map[])]
    case FinishCopy(o, _) =>
      if o in s.objs && s.objs[o].phase.Pending? && s.objs[o].phase.from in v
      then
        var x, n := v[s.objs[o].phase.from], s.objs[o].phase.n;
        v[o := x.(list := if n < |x.list| then x.list[n..] else [])]
      else v
    case Write(o, values) => v[o := values]
    case _ => v
  }

  /** The values of the objects that have been made. */
  ghost predicate Shows(s: State, v: map<Id, Contents>) {
    && (forall o :: o in v <==> o in s.objs && !s.objs[o].phase.Pending?)
    && (forall o | o in v :: Sited(s, o) && View(s, o) == v[o])
  }

  /** The same objects have been made. */
  lemma IdealIds(s: State, e: Step, s': State, v: map<Id, Contents>)
    requires Inv(s) && Enabled(s, e) && s' == Take(s, e) && Shows(s, v)
    ensures forall p :: p in Ideal(v, s, e) <==> p in s'.objs && !s'.objs[p].phase.Pending?
  {
    HasPlace(s, e.o);
    match e
    case Create(_, _, _, _) =>
    case StartCopy(_, _, _) =>
    case FinishCopy(_, _) => HasPlace(s, s.objs[e.o].phase.from);
    case StartMutate(_) =>
    case CloneList(_, _) =>
    case CloneNamed(_, _) =>
    case Write(_, _) =>
    case _ =>
  }

  /** A step changes no object but its own, and that one only as it should. */
  lemma StepShows(s: State, e: Step, s': State, v: map<Id, Contents>)
    requires Inv(s) && Enabled(s, e) && s' == Take(s, e) && Shows(s, v)
    ensures Shows(s', Ideal(v, s, e))
  {
    var v' := Ideal(v, s, e);
    HasPlace(s, e.o);
    if e.FinishCopy? { HasPlace(s, s.objs[e.o].phase.from); }
    IdealIds(s, e, s', v);
    TakeKeeps(s, e, s');
    forall p | p in v' ensures Sited(s', p) && View(s', p) == v'[p] {
      HasPlace(s', p);
      if p != e.o {
        ViewKept(s, e, s', p);
      } else {
        ViewMade(s, e, s', v);
      }
    }
  }

  /** The others keep their value. */
  lemma ViewKept(s: State, e: Step, s': State, p: Id)
    requires Inv(s) && Enabled(s, e) && s' == Take(s, e) && p != e.o && p in s.objs && Sited(s, p) && Sited(s', p)
    ensures View(s', p) == View(s, p)
  {
    if e.Write? { WritesAlone(s, e.o, p); }
  }

  /** The object itself gets the value it should have. */
  lemma ViewMade(s: State, e: Step, s': State, v: map<Id, Contents>)
    requires Inv(s) && Enabled(s, e) && s' == Take(s, e) && Shows(s, v) && Sited(s', e.o) && e.o in Ideal(v, s, e)
    ensures View(s', e.o) == Ideal(v, s, e)[e.o]
  {
    HasPlace(s, e.o);
    if e.FinishCopy? { HasPlace(s, s.objs[e.o].phase.from); }
  }

  ghost function Run(steps: seq<Step>): (s: State)
    requires Runs(steps)
    ensures Inv(s)
    decreases |steps|, 2
  {
    if steps == [] then START
    else
      var s := Run(steps[..|steps| - 1]);
      TakeKeeps(s, steps[|steps| - 1], Take(s, steps[|steps| - 1]));
      Take(s, steps[|steps| - 1])
  }

  /** A run in which every step can be taken when its turn comes. */
  ghost predicate Runs(steps: seq<Step>)
    decreases |steps|, 1
  {
    steps != [] ==> Runs(steps[..|steps| - 1]) && Enabled(Run(steps[..|steps| - 1]), steps[|steps| - 1])
  }

  ghost function IdealRun(steps: seq<Step>): map<Id, Contents>
    requires Runs(steps)
  {
    if steps == [] then map[]
    else Ideal(IdealRun(steps[..|steps| - 1]), Run(steps[..|steps| - 1]), steps[|steps| - 1])
  }

  /** Main theorem: under any interleaving of copies and mutations, every object has the value
      it would have if each copy had been made in full at once. */
  lemma {:induction false} SharingIsInvisible(steps: seq<Step>)
    requires Runs(steps)
    ensures Shows(Run(steps), IdealRun(steps))
  {
    if steps != [] {
      var n := |steps| - 1;
      SharingIsInvisible(steps[..n]);
      StepShows(Run(steps[..n]), steps[n], Run(steps), IdealRun(steps[..n]));
    }
  }
}
