/** The checker as the program has it: an object whose methods update its maps step by step.
    Every method is proved to do what the value-level model says.
 */
module Check {
  import opened CheckModel
  import M = CheckModel
  import opened CheckInvariant

  method Choose<T(==)>(s: set<T>) returns (x: T)
    requires s != {}
    ensures x in s
  {
    x :| x in s;
  }

  /** The tables each transaction has entries in. */
  ghost predicate Filed(acts: map<(string, Id), Acts>, tables: map<Id, seq<string>>) {
    && (forall q | q in acts :: q.1 in tables && q.0 in tables[q.1])
    && (forall k, tb | k in tables && tb in tables[k] :: (tb, k) in acts)
  }

  lemma FiledWithout(acts: map<(string, Id), Acts>, tables: map<Id, seq<string>>, t: Id)
    requires Filed(acts, tables)
    ensures Filed(map q | q in acts && q.1 != t :: acts[q], tables - {t})
  {
    var acts' := map q | q in acts && q.1 != t :: acts[q];
    forall k, tb | k in tables - {t} && tb in (tables - {t})[k] ensures (tb, k) in acts' {
      assert tb in tables[k];
    }
  }

  /** What the clean-up keeps when it has still to look at the transactions in `todo`. */
  ghost function Kept(was: map<Id, Tran>, todo: set<Id>, o: Time): map<Id, Tran> {
    map k | k in was && (k in todo || !Before(was[k].end, o)) :: was[k]
  }

  ghost function KeptActs(acts: map<(string, Id), Acts>, was: map<Id, Tran>, todo: set<Id>, o: Time): map<(string, Id), Acts> {
    map q | q in acts && !(q.1 in was && q.1 !in todo && Before(was[q.1].end, o)) :: acts[q]
  }

  lemma KeptStep(acts: map<(string, Id), Acts>, was: map<Id, Tran>, todo: set<Id>, o: Time, k: Id)
    requires k in todo && k in was
    ensures k in Kept(was, todo, o) && Kept(was, todo, o)[k] == was[k]
    ensures Before(was[k].end, o) ==> Kept(was, todo - {k}, o) == Kept(was, todo, o) - {k}
    ensures Before(was[k].end, o) ==>
      KeptActs(acts, was, todo - {k}, o) ==
        map q | q in KeptActs(acts, was, todo, o) && q.1 != k :: KeptActs(acts, was, todo, o)[q]
    ensures !Before(was[k].end, o) ==> Kept(was, todo - {k}, o) == Kept(was, todo, o)
    ensures !Before(was[k].end, o) ==> KeptActs(acts, was, todo - {k}, o) == KeptActs(acts, was, todo, o)
  {
  }

  ghost function KeptExcl(excl: map<string, Time>, o: Time): map<string, Time> {
    map x | x in excl && !Before(excl[x], o) :: excl[x]
  }

  lemma CleanEndedParts(s: State, o: Time)
    requires o == if s.oldest.Never? then OldestStart(s.actv) else s.oldest
    ensures M.CleanEnded(s, true) == s.(oldest := o, cmtd := Kept(s.cmtd, {}, o),
                                        acts := KeptActs(s.acts, s.cmtd, {}, o), excl := KeptExcl(s.excl, o))
  {
    var s' := M.CleanEnded(s, true);
    assert s'.cmtd == Kept(s.cmtd, {}, o);
    assert s'.acts == KeptActs(s.acts, s.cmtd, {}, o);
    assert s'.excl == KeptExcl(s.excl, o);
  }

  // ----- walking over the entries of a table -------------------------------------------

  lemma {:induction false} CheckAllConcat(s: State, t: Id, table: string, a: Action, o1: seq<Id>, o2: seq<Id>, heads: set<Id>)
    ensures CheckAll(s, t, table, a, o1 + o2, heads, true) ==
            CheckAll(CheckAll(s, t, table, a, o1, heads, true), t, table, a, o2, heads, true)
    decreases o1
  {
    if o1 == [] {
      assert o1 + o2 == o2;
    } else if t in s.actv {
      assert (o1 + o2)[0] == o1[0] && (o1 + o2)[1..] == o1[1..] + o2;
      CheckAllConcat(Visit(s, t, table, a, o1[0], o1[0] in heads, true), t, table, a, o1[1..], o2, heads);
    }
  }

  lemma {:induction false} CheckAllHeads(s: State, t: Id, table: string, a: Action, order: seq<Id>, heads: set<Id>, heads': set<Id>)
    requires forall v | v in order :: v in heads <==> v in heads'
    ensures CheckAll(s, t, table, a, order, heads, true) == CheckAll(s, t, table, a, order, heads', true)
    decreases order
  {
    if order != [] && t in s.actv {
      var v := order[0];
      assert v in heads <==> v in heads';
      CheckAllHeads(Visit(s, t, table, a, v, v in heads, true), t, table, a, order[1..], heads, heads');
    }
  }

  lemma CheckAllAppend(s: State, s1: State, t: Id, table: string, a: Action, order: seq<Id>, heads: set<Id>, u: Id, heads': set<Id>)
    requires s1 == CheckAll(s, t, table, a, order, heads, true) && t in s1.actv
    requires forall v | v in order :: v in heads <==> v in heads'
    ensures CheckAll(s, t, table, a, order + [u], heads', true) == Visit(s1, t, table, a, u, u in heads', true)
  {
    CheckAllHeads(s, t, table, a, order, heads, heads');
    CheckAllConcat(s, t, table, a, order, [u], heads');
    var s2 := Visit(s1, t, table, a, u, u in heads', true);
    assert CheckAll(s2, t, table, a, [], heads', true) == s2;
  }

  /** Visiting transactions that are gone changes nothing. */
  lemma {:induction false} CheckAllIdle(s: State, t: Id, table: string, a: Action, order: seq<Id>, heads: set<Id>)
    requires t in s.actv ==> forall u | u in order :: !Known(s, u)
    ensures CheckAll(s, t, table, a, order, heads, true) == s
    decreases order
  {
    if order != [] && t in s.actv {
      assert !Known(s, order[0]);
      CheckAllIdle(s, t, table, a, order[1..], heads);
    }
  }

  ghost function ToSeq<T(!new)>(s: set<T>): (r: seq<T>)
    ensures forall x :: x in r <==> x in s
  {
    if s == {} then [] else var x := Pick(s); [x] + ToSeq(s - {x})
  }

  function Ids(acts: map<(string, Id), Acts>, table: string): set<Id> {
    set q | q in acts && q.0 == table :: q.1
  }

  lemma EntriesShrink(s: State, t: Id, table: string, a: Action, u: Id, head: bool)
    requires Struct(s) && t in s.actv
    ensures Ids(Visit(s, t, table, a, u, head, true).acts, table) <= Ids(s.acts, table)
  {
    VisitShrinks(s, t, table, a, u, head, true);
  }

  lemma NothingLeft<T>(a: set<T>, b: set<T>)
    requires a - b == {}
    ensures a <= b
  {
    assert forall x | x in a && x !in b :: x in a - b;
  }

  /** Extends a visiting order to one that lists every entry the table had at first. */
  lemma Complete(s: State, s1: State, t: Id, table: string, a: Action, order: seq<Id>, heads: set<Id>) returns (all: seq<Id>)
    requires Struct(s) && s1 == CheckAll(s, t, table, a, order, heads, true)
    requires t in s1.actv ==> forall u | u in Ids(s1.acts, table) :: u in order
    ensures CheckAll(s, t, table, a, all, heads, true) == s1
    ensures forall u | (table, u) in s.acts :: u in all
  {
    CheckAllShrinks(s, t, table, a, order, heads, true);
    var rest := ToSeq(Ids(s.acts, table) - (set v | v in order));
    all := order + rest;
    CheckAllConcat(s, t, table, a, order, rest, heads);
    if t in s1.actv {
      forall u | u in rest ensures !Known(s1, u) {
        assert u in Ids(s.acts, table) && u !in order;
        assert (table, u) in s.acts && (table, u) !in s1.acts;
        assert (table, u).1 == u;
      }
    }
    CheckAllIdle(s1, t, table, a, rest, heads);
    forall u | (table, u) in s.acts ensures u in all {
      assert u in Ids(s.acts, table);
    }
  }

  // ----- finding a clash -------------------------------------------------------------------

  /** Loops over the keys until one is inside the ranges read. */
  method FindRead(scans: seq<set<(Key, Key)>>, keys: seq<Key>) returns (hit: bool)
    ensures hit == AnyRead(scans, keys)
  {
    var i := 0;
    while i < |keys|
      invariant 0 <= i <= |keys|
      invariant forall j: nat | j < i :: !Contains(scans, j, keys[j])
    {
      if Contains(scans, i, keys[i]) {
        return true;
      }
      i := i + 1;
    }
    hit := false;
  }

  /** Like FindRead, but skips the new keys that are the same as the old ones. */
  method FindChangedRead(scans: seq<set<(Key, Key)>>, oldkeys: seq<Key>, newkeys: seq<Key>) returns (hit: bool)
    requires |newkeys| <= |oldkeys|
    ensures !AnyRead(scans, oldkeys) ==> hit == AnyRead(scans, newkeys)
  {
    var i := 0;
    while i < |newkeys|
      invariant 0 <= i <= |newkeys|
      invariant !AnyRead(scans, oldkeys) ==> forall j: nat | j < i :: !Contains(scans, j, newkeys[j])
    {
      if newkeys[i] != oldkeys[i] && Contains(scans, i, newkeys[i]) {
        return true;
      }
      assert newkeys[i] == oldkeys[i] && Contains(scans, i, newkeys[i]) ==> AnyRead(scans, oldkeys);
      i := i + 1;
    }
    hit := false;
  }

  /** An output has only new keys, a delete only old ones, and an update at least as many old as new ones. */
  predicate WellFormed(a: Action) {
    match a
    case Read(_, _, _) => true
    case Write(Output, deletes, _) => deletes == []
    case Write(Delete, _, outputs) => outputs == []
    case Write(Update, deletes, outputs) => |outputs| <= |deletes|
  }

  method FindClash(a: Action, other: Acts, ended: bool) returns (hit: bool, name: string)
    requires WellFormed(a)
    ensures hit == Clashes(a, other, ended)
    ensures hit ==> name == ActName(a, other)
  {
    match a
    case Read(ix, from, to) =>
      hit := AnyInRange(other.outputs, ix, from, to) || AnyInRange(other.deletes, ix, from, to);
      name := "read";
    case Write(kind, deletes, outputs) =>
      hit, name := false, "";
      if !ended {
        if kind.Output? {
          hit := FindRead(other.scans, outputs);
          name := "output";
        } else {
          hit := FindRead(other.scans, deletes);
          name := "delete";
          if kind.Update? && !hit {
            hit := FindChangedRead(other.scans, deletes, outputs);
            name := "update";
          }
        }
      }
  }

  // ----- recording keys ----------------------------------------------------------------------

  /** ckwrites.with: extends the slice to the index and inserts the key. */
  function With(w: seq<set<Key>>, ix: nat, key: Key): (r: seq<set<Key>>)
    ensures |r| == Max(|w|, ix + 1)
    ensures forall i: nat :: Nth(r, i) == if i == ix then InsertKey(Nth(w, ix), key) else Nth(w, i)
  {
    var padded := if |w| <= ix then w + seq(ix + 1 - |w|, _ => {}) else w;
    padded[ix := InsertKey(padded[ix], key)]
  }

  /** Inserts one key per index; it fails if a set is full, which is beyond this model. */
  method AddAll(w: seq<set<Key>>, keys: seq<Key>) returns (r: seq<set<Key>>, ok: bool)
    ensures ok ==> r == SaveKeys(w, keys)
  {
    r := w;
    var i := 0;
    while i < |keys|
      invariant 0 <= i <= |keys| && |r| == Max(|w|, i)
      invariant forall j: nat :: Nth(r, j) == if j < i then InsertKey(Nth(w, j), keys[j]) else Nth(w, j)
    {
      var full: bool := *;
      if full {
        return r, false;
      }
      r := With(r, i, keys[i]);
      i := i + 1;
    }
    assert forall j: nat | j < |r| :: r[j] == Nth(r, j);
    ok := true;
  }

  ghost function AllIds(acts: map<(string, Id), Acts>, table: string): (r: seq<Id>)
    ensures forall u | (table, u) in acts :: u in r
  {
    assert forall u | (table, u) in acts :: u in Ids(acts, table);
    ToSeq(Ids(acts, table))
  }

  lemma FiledPut(acts: map<(string, Id), Acts>, tables: map<Id, seq<string>>, table: string, t: Id, a: Acts)
    requires Filed(acts, tables)
    ensures (table, t) in acts ==> Filed(acts[(table, t) := a], tables)
    ensures Filed(acts[(table, t) := a], tables[t := (if t in tables then tables[t] else []) + [table]])
  {
  }

  /** An entry created just before an abort leaves no trace. */
  lemma AbortForgets(s: State, t: Id, table: string, acts: Acts)
    requires t in s.actv
    ensures M.Abort(PutActs(s, t, table, acts), t, true) == M.Abort(s, t, true)
  {
    assert M.RemoveByTable(PutActs(s, t, table, acts), t) == M.RemoveByTable(s, t);
  }

  lemma PutTwice(s: State, t: Id, table: string, a: Acts, b: Acts)
    ensures PutActs(PutActs(s, t, table, a), t, table, b) == PutActs(s, t, table, b)
  {
    assert s.acts[(table, t) := a][(table, t) := b] == s.acts[(table, t) := b];
  }

  // ----- committing ---------------------------------------------------------------------------

  /** `acts` with the reads of `t` cleared in the given tables. */
  ghost function Cleared(acts: map<(string, Id), Acts>, t: Id, tables: seq<string>): map<(string, Id), Acts> {
    map q | q in acts :: if q.1 == t && q.0 in tables then acts[q].(scans := []) else acts[q]
  }

  lemma CommittedCleared(s: State, t: Id, tables: seq<string>)
    requires t in s.actv && s.actv[t].hasUpdates && (forall q | q in s.acts && q.1 == t :: q.0 in tables)
    ensures Committed(s, t) == s.(seqno := s.seqno + 2, actv := s.actv - {t},
      oldest := if s.oldest == At(t) then Never else s.oldest,
      cmtd := s.cmtd[t := s.actv[t].(end := At(s.seqno + 2))], acts := Cleared(s.acts, t, tables))
  {
    assert Committed(s, t).acts == Cleared(s.acts, t, tables);
  }

  /** Clearing the reads of a transaction does not change what it has written. */
  lemma ClearedWrites(s: State, t: Id, tables: seq<string>)
    ensures forall tb :: (tb, t) in Cleared(s.acts, t, tables) && Wrote(Cleared(s.acts, t, tables)[(tb, t)]) <==> Wrote(ActsOf(s, tb, t))
  {
  }

  lemma WritersHaveUpdates(s: State, table: string, t: Id)
    requires Struct(s) && t in s.actv && !s.actv[t].hasUpdates
    ensures !Wrote(ActsOf(s, table, t))
  {
    if (table, t) in s.acts { assert (table, t).1 == t && Known(s, t); }
  }

  /** The tables a commit has written, or that there was no such transaction. */
  datatype Outcome = Gone | Written(tables: seq<string>)

  // ----- other loops ----------------------------------------------------------------------------

  lemma {:induction false} AbortWritersAppend(s: State, table: string, order: seq<Id>, u: Id)
    ensures var s1 := AbortWriters(s, table, order, true);
            AbortWriters(s, table, order + [u], true) ==
              if Wrote(ActsOf(s1, table, u)) then M.Abort(s1, u, true) else s1
    decreases order
  {
    if order == [] {
      assert order + [u] == [u];
      var s1 := if Wrote(ActsOf(s, table, u)) then M.Abort(s, u, true) else s;
      assert [u][1..] == [];
      assert AbortWriters(s1, table, [], true) == s1;
    } else {
      assert (order + [u])[0] == order[0] && (order + [u])[1..] == order[1..] + [u];
      var s1 := if Wrote(ActsOf(s, table, order[0])) then M.Abort(s, order[0], true) else s;
      AbortWritersAppend(s1, table, order[1..], u);
    }
  }

  /** Entries that are gone may be listed too. */
  lemma {:induction false} AbortWritersMore(s: State, table: string, order: seq<Id>, more: seq<Id>)
    requires forall u | u in more :: (table, u) !in AbortWriters(s, table, order, true).acts
    ensures AbortWriters(s, table, order + more, true) == AbortWriters(s, table, order, true)
    decreases more
  {
    if more == [] {
      assert order + more == order;
    } else {
      var u := more[0];
      assert u in more;
      AbortWritersAppend(s, table, order, u);
      assert forall v | v in more[1..] :: v in more;
      AbortWritersMore(s, table, order + [u], more[1..]);
      assert order + [u] + more[1..] == order + more;
    }
  }

  lemma {:induction false} AbortAgedAppend(s: State, order: seq<Id>, u: Id)
    ensures var s1 := AbortAged(s, order, true);
            AbortAged(s, order + [u], true) ==
              if u in s1.actv && s1.clock - s1.actv[u].birth >= MAX_AGE then M.Abort(s1, u, true) else s1
    decreases order
  {
    if order == [] {
      assert order + [u] == [u];
      var s1 := if u in s.actv && s.clock - s.actv[u].birth >= MAX_AGE then M.Abort(s, u, true) else s;
      assert [u][1..] == [];
      assert AbortAged(s1, [], true) == s1;
    } else {
      assert (order + [u])[0] == order[0] && (order + [u])[1..] == order[1..] + [u];
      var t := order[0];
      var s1 := if t in s.actv && s.clock - s.actv[t].birth >= MAX_AGE then M.Abort(s, t, true) else s;
      AbortAgedAppend(s1, order[1..], u);
    }
  }

  class Check {
    var actvTran: map<Id, Tran>
    var cmtdTran: map<Id, Tran>
    var bytable: map<(string, Id), Acts>
    var exclusive: map<string, Time>
    var seqno: int
    var oldest: Time
    var clock: int
    var tables: map<Id, seq<string>>  // the tables field of each transaction

    ghost function Abs(): State
      reads this
    {
      State(actvTran, cmtdTran, bytable, exclusive, seqno, oldest, clock)
    }

    ghost predicate Valid()
      reads this
    {
      Filed(bytable, tables) && Struct(Abs()) && Pruned(Abs())
    }

    constructor ()
      ensures Valid() && Abs() == INITIAL
    {
      actvTran, cmtdTran, bytable, exclusive := map[], map[], map[], map[];
      seqno, oldest, clock := 1, Never, 0;
      tables := map[];
    }

    method Next() returns (n: int)
      modifies this`seqno
      ensures n == seqno == old(seqno) + 2
    {
      seqno := seqno + 2;
      n := seqno;
    }

    method StartTran() returns (t: Id)
      requires Valid()
      modifies this
      ensures Valid() && Abs() == M.StartTran(old(Abs())) && t == seqno
    {
      StartKeeps(Abs());
      t := Next();
      actvTran := actvTran[t := Tran(Never, clock, 0, false, "")];
      tables := tables[t := []];
    }

    // ----- ending transactions ---------------------------------------------------------

    /** Removes the entries of `t` from the tables it lists. */
    method RemoveByTable(t: Id)
      requires Filed(bytable, tables)
      modifies this`bytable, this`tables
      ensures Filed(bytable, tables)
      ensures Abs() == M.RemoveByTable(old(Abs()), t)
    {
      if t in tables {
        var list := tables[t];
        var i := 0;
        while i < |list|
          modifies this`bytable
          invariant 0 <= i <= |list|
          invariant bytable == map q | q in old(bytable) && !(q.1 == t && q.0 in list[..i]) :: old(bytable)[q]
        {
          bytable := bytable - {(list[i], t)};
          i := i + 1;
        }
        assert list[..i] == list;
      }
      assert bytable == map q | q in old(bytable) && q.1 != t :: old(bytable)[q];
      FiledWithout(old(bytable), tables, t);
      tables := tables - {t};
    }
  
    /** The oldest start among the active transactions. */
    method FindOldest() returns (o: Time)
      ensures o == OldestStart(actvTran)
    {
      o := Never;
      var todo := actvTran.Keys;
      while todo != {}
        invariant todo <= actvTran.Keys
        invariant o.At? ==> o.n in actvTran
        invariant forall k | k in actvTran && k !in todo :: o.At? && o.n <= k
      {
        var k := Choose(todo);
        todo := todo - {k};
        if Before(At(k), o) {
          o := At(k);
        }
      }
    }

    /** Removes the committed transactions that ended before the oldest active one started. */
    method CleanCommitted()
      requires Filed(bytable, tables)
      modifies this`cmtdTran, this`bytable, this`tables
      ensures Filed(bytable, tables)
      ensures cmtdTran == Kept(old(cmtdTran), {}, oldest)
      ensures bytable == KeptActs(old(bytable), old(cmtdTran), {}, oldest)
    {
      var todo := cmtdTran.Keys;
      ghost var was, acts := cmtdTran, bytable;
      assert cmtdTran == Kept(was, todo, oldest);
      assert bytable == KeptActs(acts, was, todo, oldest);
      while todo != {}
        invariant Filed(bytable, tables) && todo <= was.Keys
        invariant cmtdTran == Kept(was, todo, oldest)
        invariant bytable == KeptActs(acts, was, todo, oldest)
      {
        var k := Choose(todo);
        KeptStep(acts, was, todo, oldest, k);
        if Before(cmtdTran[k].end, oldest) {
          RemoveByTable(k);
          cmtdTran := cmtdTran - {k};
        }
        todo := todo - {k};
      }
    }

    /** Forgets the exclusives that ended before the oldest active transaction started. */
    method CleanExclusive()
      modifies this`exclusive
      ensures exclusive == KeptExcl(old(exclusive), oldest)
    {
      var todo := exclusive.Keys;
      ghost var was := exclusive;
      while todo != {}
        invariant todo <= was.Keys
        invariant exclusive == map x | x in was && (x in todo || !Before(was[x], oldest)) :: was[x]
      {
        var x := Choose(todo);
        todo := todo - {x};
        if Before(exclusive[x], oldest) {
          exclusive := exclusive - {x};
        }
      }
    }

    method CleanEnded()
      requires Filed(bytable, tables) && Struct(Abs())
      modifies this
      ensures Valid() && Abs() == M.CleanEnded(old(Abs()), true)
    {
      ghost var s := Abs();
      if oldest.Never? {
        oldest := FindOldest();
      }
      CleanEndedParts(s, oldest);
      CleanCommitted();
      CleanExclusive();
      assert Abs() == M.CleanEnded(s, true);
      CleanEndedShrinks(s, true);
    }

    /** Ends a transaction; false if it is gone already. */
    method Abort(tn: Id) returns (ok: bool)
      requires Valid()
      modifies this
      ensures Valid() && Abs() == M.Abort(old(Abs()), tn, true) && ok == (tn in old(actvTran))
    {
      AbortShrinks(Abs(), tn, true);
      if tn !in actvTran {
        return false;
      }
      RemoveByTable(tn);
      actvTran := actvTran - {tn};
      if At(tn) == oldest || oldest.Never? {
        oldest := Never;
        DropShrinks(old(Abs()), tn, Abs());
        CleanEnded();
      }
      ok := true;
    }
  
    // ----- conflicts ----------------------------------------------------------------------

    /** Aborts one of two conflicting transactions, or marks one that has no updates.
        The coin is ours to toss; `head` reports how it fell. */
    method Abort1Of(t1: Id, t2: Id, act1: string, act2: string, table: string) returns (aborted: bool, ghost head: bool)
      requires Valid() && t1 in actvTran && Known(Abs(), t2) && t1 != t2
      modifies this
      ensures Valid() && Abs() == M.Abort1Of(old(Abs()), t1, t2, act1, act2, table, head, true)
      ensures aborted == (t1 !in actvTran)
    {
      var coin: bool := *;
      head := coin;
      Abort1OfShrinks(Abs(), t1, t2, act1, act2, table, head, true);
      Abort1OfAbortsExactlyOne(Abs(), t1, t2, act1, act2, table, head, true);
      if !actvTran[t1].hasUpdates {
        actvTran := actvTran[t1 := actvTran[t1].(readConflict := Message(act1, act2, table))];
        return false, head;
      }
      if t2 in actvTran && !actvTran[t2].hasUpdates {
        actvTran := actvTran[t2 := actvTran[t2].(readConflict := Message(act2, act1, table))];
        return false, head;
      }
      if t2 in cmtdTran || coin {
        var _ := Abort(t1);
        return true, head;
      }
      var _ := Abort(t2);
      aborted := false;
    }
  
    predicate Overlaps(t: Id, u: Id)
      requires t in actvTran && (u in actvTran || u in cmtdTran)
      reads this
    {
      var end := if u in actvTran then actvTran[u].end else cmtdTran[u].end;
      Before(At(u), actvTran[t].end) && Before(At(t), end)
    }

    /** One iteration of the loop of CheckAgainst. */
    method VisitOne(t: Id, table: string, a: Action, u: Id) returns (aborted: bool, ghost head: bool)
      requires Valid() && t in actvTran && WellFormed(a) && (table, u) in bytable
      modifies this
      ensures Valid() && Abs() == Visit(old(Abs()), t, table, a, u, head, true)
      ensures aborted == (t !in actvTran)
    {
      head := false;
      assert (table, u).1 == u && Known(Abs(), u);
      if u != t && Overlaps(t, u) {
        var other := bytable[(table, u)];
        var hit, name := FindClash(a, other, u in cmtdTran);
        if hit {
          assert Conflict(Abs(), t, table, a, u);
          aborted, head := Abort1Of(t, u, name, OtherName(a), table);
          return;
        }
      }
      aborted := false;
    }

    /** Checks an action against the other transactions with entries for the table. Go visits
        them in no particular order, and skips those removed before it gets to them. */
    method CheckAgainst(t: Id, table: string, a: Action) returns (ok: bool, ghost order: seq<Id>, ghost heads: set<Id>)
      requires Valid() && t in actvTran && WellFormed(a)
      modifies this
      ensures Valid() && Abs() == CheckAll(old(Abs()), t, table, a, order, heads, true)
      ensures forall u | (table, u) in old(bytable) :: u in order
      ensures ok == (t in actvTran)
    {
      ghost var s := Abs();
      var visited: set<Id> := {};
      order, heads := [], {};
      var todo := Ids(bytable, table);
      while todo != {}
        invariant Valid() && t in actvTran && t in s.actv && Struct(s)
        invariant Abs() == CheckAll(s, t, table, a, order, heads, true)
        invariant forall u :: u in order <==> u in visited
        invariant todo == Ids(bytable, table) - visited
        invariant todo <= Ids(s.acts, table) - visited
        decreases Ids(s.acts, table) - visited
      {
        var u := Choose(todo);
        ghost var s1 := Abs();
        assert (table, u) in bytable;
        var aborted, head := VisitOne(t, table, a, u);
        ghost var heads' := if head then heads + {u} else heads - {u};
        CheckAllAppend(s, s1, t, table, a, order, heads, u, heads');
        visited := visited + {u};
        order, heads := order + [u], heads';
        if aborted {
          order := Complete(s, Abs(), t, table, a, order, heads);
          return false, order, heads;
        }
        EntriesShrink(s1, t, table, a, u, head);
        todo := Ids(bytable, table) - visited;
      }
      NothingLeft(Ids(bytable, table), visited);
      order := Complete(s, Abs(), t, table, a, order, heads);
      ok := true;
    }
  
    // ----- recording actions ------------------------------------------------------------------

    /** The entry of an active transaction for a table, created if need be. */
    method GetActs(t: Id, table: string) returns (acts: Acts)
      requires Valid() && t in actvTran
      modifies this
      ensures Valid() && acts == ActsOf(old(Abs()), table, t)
      ensures Abs() == PutActs(old(Abs()), t, table, acts)
    {
      acts := if (table, t) in bytable then bytable[(table, t)] else NO_ACTS;
      PutActsKeeps(Abs(), t, table, acts);
      FiledPut(bytable, tables, table, t, acts);
      if (table, t) !in bytable {
        bytable := bytable[(table, t) := acts];
        tables := tables[t := (if t in tables then tables[t] else []) + [table]];
      }
    }

    /** Replaces the entry of an active transaction for a table. */
    method SetActs(t: Id, table: string, acts: Acts)
      requires Valid() && t in actvTran && (table, t) in bytable && (Wrote(acts) ==> actvTran[t].hasUpdates)
      modifies this
      ensures Valid() && Abs() == PutActs(old(Abs()), t, table, acts)
    {
      PutActsKeeps(Abs(), t, table, acts);
      FiledPut(bytable, tables, table, t, acts);
      bytable := bytable[(table, t) := acts];
    }

    /** Adds to the read count of a transaction, whose entry for the table it returns. */
    method Count(t: Id, table: string, growth: int) returns (acts: Acts)
      requires Valid() && t in actvTran
      modifies this
      ensures Valid() && acts == ActsOf(old(Abs()), table, t) && (table, t) in bytable
      ensures Abs() == Counted(old(Abs()), t, table, old(actvTran)[t].readCount + growth)
      ensures t in actvTran && (Wrote(acts) ==> actvTran[t].hasUpdates)
    {
      CountedKeeps(Abs(), t, table, actvTran[t].readCount + growth);
      acts := GetActs(t, table);
      actvTran := actvTran[t := actvTran[t].(readCount := actvTran[t].readCount + growth)];
    }

    /** Records a range; `inc` is what the range set reports as its growth. */
    method SaveRead(t: Id, table: string, ix: nat, from: Key, to: Key) returns (ok: bool, ghost inc: int)
      requires Valid() && t in actvTran
      modifies this
      ensures Valid() && Abs() == M.SaveRead(old(Abs()), t, table, ix, from, to, inc, true)
      ensures ok == (t in actvTran)
    {
      var growth: int := *;
      inc := growth;
      ghost var s, n := Abs(), actvTran[t].readCount + growth;
      SaveReadIs(s, t, table, M.Read(ix, from, to), Oracle([], {}, inc, true), n, true);
      var acts := Count(t, table, growth);
      ghost var s1 := Abs();
      assert s1 == Counted(s, t, table, n) && actvTran[t].readCount == n;
      if actvTran[t].readCount >= READ_MAX {
        AbortShrinks(s1, t, true);
        var _ := Abort(t);
        assert Abs() == M.Abort(s1, t, true);
        return false, inc;
      }
      SetActs(t, table, AddScan(acts, ix, from, to));
      assert Abs() == PutActs(s1, t, table, AddScan(acts, ix, from, to));
      ok := true;
    }

    /** Checks and records the read of a transaction that has no conflict yet. */
    method ReadChecked(t: Id, table: string, ix: nat, from: Key, to: Key) returns (ok: bool, ghost o: Oracle)
      requires Valid() && t in actvTran
      modifies this
      ensures Valid() && Abs() == Checked(old(Abs()), t, table, M.Read(ix, from, to), o, true)
      ensures (forall u | (table, u) in old(bytable) :: u in o.order) && (t in actvTran ==> ok)
    {
      ghost var order, heads, inc;
      ok, order, heads := CheckAgainst(t, table, M.Read(ix, from, to));
      if !ok {
        return false, Oracle(order, heads, 0, true);
      }
      ok, inc := SaveRead(t, table, ix, from, to);
      o := Oracle(order, heads, inc, true);
      if !ok {
        var _ := Abort(t);
      }
      ok := true;
    }

    /** Checks and records a read. */
    method Read(t: Id, table: string, ix: nat, from: Key, to: Key) returns (ok: bool, ghost o: Oracle)
      requires Valid()
      modifies this
      ensures Valid() && Abs() == DoAct(old(Abs()), t, table, M.Read(ix, from, to), o, true)
      ensures Visits(old(Abs()), MAct(t, table, M.Read(ix, from, to), o))
      ensures t in actvTran ==> ok
    {
      o := Oracle(AllIds(bytable, table), {}, 0, true);
      if t in actvTran && actvTran[t].readConflict != "" {
        return true, o;
      }
      if t !in actvTran {
        return false, o;
      }
      assert actvTran[t].end.Never?;
      ok, o := ReadChecked(t, table, ix, from, to);
    }

    /** False if it aborts the transaction, because of an earlier conflict. */
    method GotUpdate(t: Id) returns (ok: bool)
      requires Valid() && t in actvTran
      modifies this
      ensures Valid()
      ensures ok == !(old(actvTran)[t].readConflict != "" && !old(actvTran)[t].hasUpdates)
      ensures Abs() == if ok then MarkUpdates(old(Abs()), t) else M.Abort(old(Abs()), t, true)
    {
      if !actvTran[t].hasUpdates {
        if actvTran[t].readConflict != "" {
          var _ := Abort(t);
          return false;
        }
        MarkUpdatesKeeps(Abs(), t);
        actvTran := actvTran[t := actvTran[t].(hasUpdates := true)];
      }
      ok := true;
    }

    method SaveWrite(t: Id, table: string, deletes: seq<Key>, outputs: seq<Key>) returns (ok: bool)
      requires Valid() && t in actvTran && actvTran[t].hasUpdates
      modifies this
      ensures Valid() && Abs() == M.SaveWrite(old(Abs()), t, table, deletes, outputs, ok, true)
    {
      ghost var s := Abs();
      var acts := GetActs(t, table);
      var dels, outs;
      dels, ok := AddAll(acts.deletes, deletes);
      if ok {
        outs, ok := AddAll(acts.outputs, outputs);
      }
      if ok {
        PutTwice(s, t, table, acts, AddKeys(acts, deletes, outputs));
        SetActs(t, table, acts.(deletes := dels, outputs := outs));
      } else {
        AbortForgets(s, t, table, acts);
        var _ := Abort(t);
      }
    }

    /** Checks and records an output, a delete or an update. */
    method WriteAction(t: Id, table: string, a: Action) returns (ok: bool, ghost o: Oracle)
      requires Valid() && a.Write? && WellFormed(a)
      modifies this
      ensures Valid() && Abs() == DoAct(old(Abs()), t, table, a, o, true)
      ensures Visits(old(Abs()), MAct(t, table, a, o))
      ensures ok == (t in actvTran)
    {
      ghost var s := Abs();
      o := Oracle(AllIds(bytable, table), {}, 0, true);
      if t !in actvTran {
        return false, o;
      }
      ok := GotUpdate(t);
      if !ok {
        AbortShrinks(s, t, true);
        return;
      }
      assert actvTran[t].end.Never?;
      if table in exclusive && Before(At(t), exclusive[table]) {
        AbortShrinks(Abs(), t, true);
        var _ := Abort(t);
        return false, o;
      }
      ghost var order, heads;
      CheckAllShrinks(Abs(), t, table, a, [], {}, true);
      ok, order, heads := CheckAgainst(t, table, a);
      o := Oracle(order, heads, 0, true);
      if !ok {
        return;
      }
      CheckAllShrinks(MarkUpdates(s, t), t, table, a, order, heads, true);
      ghost var s1 := Abs();
      ok := SaveWrite(t, table, a.deletes, a.outputs);
      o := o.(room := ok);
      AbortShrinks(s1, t, true);
    }

    method Output(t: Id, table: string, keys: seq<Key>) returns (ok: bool, ghost o: Oracle)
      requires Valid()
      modifies this
      ensures Valid() && Abs() == DoAct(old(Abs()), t, table, Write(M.Output, [], keys), o, true)
      ensures Visits(old(Abs()), MAct(t, table, Write(M.Output, [], keys), o)) && ok == (t in actvTran)
    {
      ok, o := WriteAction(t, table, Write(M.Output, [], keys));
    }

    method Delete(t: Id, table: string, keys: seq<Key>) returns (ok: bool, ghost o: Oracle)
      requires Valid()
      modifies this
      ensures Valid() && Abs() == DoAct(old(Abs()), t, table, Write(M.Delete, keys, []), o, true)
      ensures Visits(old(Abs()), MAct(t, table, Write(M.Delete, keys, []), o)) && ok == (t in actvTran)
    {
      ok, o := WriteAction(t, table, Write(M.Delete, keys, []));
    }

    method Update(t: Id, table: string, oldkeys: seq<Key>, newkeys: seq<Key>) returns (ok: bool, ghost o: Oracle)
      requires Valid() && |newkeys| <= |oldkeys|
      modifies this
      ensures Valid() && Abs() == DoAct(old(Abs()), t, table, Write(M.Update, oldkeys, newkeys), o, true)
      ensures Visits(old(Abs()), MAct(t, table, Write(M.Update, oldkeys, newkeys), o)) && ok == (t in actvTran)
    {
      ok, o := WriteAction(t, table, Write(M.Update, oldkeys, newkeys));
    }
  
    // ----- committing ---------------------------------------------------------------------------

    /** Clears the reads of a transaction and returns the tables it has written. */
    method CommitByTable(t: Id) returns (tw: seq<string>)
      requires Filed(bytable, tables) && t in tables
      modifies this`bytable
      ensures Filed(bytable, tables) && bytable == Cleared(old(bytable), t, tables[t])
      ensures forall tb :: tb in tw <==> (tb, t) in bytable && Wrote(bytable[(tb, t)])
    {
      tw := [];
      var list := tables[t];
      var i := 0;
      assert bytable == Cleared(bytable, t, []);
      while i < |list|
        invariant 0 <= i <= |list|
        invariant bytable == Cleared(old(bytable), t, list[..i])
        invariant forall tb :: tb in tw <==> tb in list[..i] && Wrote(old(bytable)[(tb, t)])
      {
        var acts := bytable[(list[i], t)];
        if Wrote(acts) {
          tw := tw + [list[i]];
        }
        bytable := bytable[(list[i], t) := acts.(scans := [])];
        assert list[..i + 1] == list[..i] + [list[i]];
        i := i + 1;
      }
      assert list[..i] == list;
    }

    /** Moves a transaction from active to committed, or drops it if it has no updates. */
    method Finish(t: Id) returns (tw: seq<string>)
      requires Valid() && t in actvTran
      modifies this
      ensures Filed(bytable, tables) && Abs() == Committed(old(Abs()), t)
      ensures forall tb :: tb in tw <==> Wrote(ActsOf(old(Abs()), tb, t))
    {
      ghost var s := Abs();
      var tran := actvTran[t];
      var end := Next();
      if oldest == At(t) {
        oldest := Never;
      }
      actvTran := actvTran - {t};
      if tran.hasUpdates {
        tw := KeepWriter(t, tran.(end := At(end)));
        CommittedCleared(s, t, tables[t]);
        ClearedWrites(s, t, tables[t]);
      } else {
        RemoveByTable(t);
        tw := [];
        forall tb ensures !Wrote(ActsOf(s, tb, t)) { WritersHaveUpdates(s, tb, t); }
      }
    }

    /** A transaction with updates is remembered with its writes. */
    method KeepWriter(t: Id, tran: Tran) returns (tw: seq<string>)
      requires Filed(bytable, tables)
      modifies this`cmtdTran, this`tables, this`bytable
      ensures Filed(bytable, tables) && t in tables && (forall q | q in old(bytable) && q.1 == t :: q.0 in tables[t])
      ensures cmtdTran == old(cmtdTran)[t := tran] && bytable == Cleared(old(bytable), t, tables[t])
      ensures forall tb :: tb in tw <==> (tb, t) in bytable && Wrote(bytable[(tb, t)])
    {
      cmtdTran := cmtdTran[t := tran];
      if t !in tables {
        tables := tables[t := []];
      }
      tw := CommitByTable(t);
    }

    /** Commits a transaction, unless it is gone. */
    method Commit(t: Id) returns (out: Outcome)
      requires Valid()
      modifies this
      ensures Valid() && Abs() == M.Commit(old(Abs()), t, true)
      ensures out.Written? == (t in old(actvTran))
      ensures out.Written? ==> forall tb :: tb in out.tables <==> Wrote(ActsOf(old(Abs()), tb, t))
    {
      if t !in actvTran {
        return Gone;
      }
      CommittedKeeps(Abs(), t);
      var tw := Finish(t);
      out := Written(tw);
      if oldest.Never? {
        CleanEnded();
      }
    }

    // ----- exclusive access -------------------------------------------------------------------------

    /** Aborts the transactions with writes to the table, in any order. */
    method AbortWritersOf(table: string) returns (ghost order: seq<Id>)
      requires Valid()
      modifies this
      ensures Valid() && Abs() == AbortWriters(old(Abs()), table, order, true)
      ensures forall u | (table, u) in old(bytable) :: u in order
    {
      ghost var s := Abs();
      order := [];
      var visited: set<Id> := {};
      var todo := Ids(bytable, table);
      while todo != {}
        invariant Valid() && Struct(s) && Abs() == AbortWriters(s, table, order, true)
        invariant forall u :: u in order <==> u in visited
        invariant todo == Ids(bytable, table) - visited && todo <= Ids(s.acts, table) - visited
        decreases Ids(s.acts, table) - visited
      {
        var u := Choose(todo);
        AbortWritersAppend(s, table, order, u);
        AbortShrinks(Abs(), u, true);
        assert (table, u) in bytable;
        if Wrote(bytable[(table, u)]) {
          var _ := Abort(u);
        }
        visited := visited + {u};
        order := order + [u];
        todo := Ids(bytable, table) - visited;
      }
      NothingLeft(Ids(bytable, table), visited);
      ghost var rest := ToSeq(Ids(s.acts, table) - visited);
      forall u | u in rest ensures (table, u) !in bytable {
        assert u !in visited;
        assert (table, u) in bytable ==> u in Ids(bytable, table);
      }
      AbortWritersMore(s, table, order, rest);
      forall u | (table, u) in s.acts ensures u in order + rest {
        assert u in Ids(s.acts, table);
      }
      order := order + rest;
    }

    method AddExclusive(table: string) returns (ok: bool, ghost order: seq<Id>)
      requires Valid()
      modifies this
      ensures Valid() && Abs() == M.AddExclusive(old(Abs()), table, order, true)
      ensures Visits(old(Abs()), MAddExclusive(table, order)) && ok == !Exclusive(old(Abs()), table)
    {
      order := AllIds(bytable, table);
      if table in exclusive && exclusive[table].Never? {
        return false, order;
      }
      order := AbortWritersOf(table);
      AddExclusiveKeeps(old(Abs()), table, order, true);
      exclusive := exclusive[table := Never];
      ok := true;
    }

    method EndExclusive(table: string)
      requires Valid()
      modifies this
      ensures Valid() && Abs() == M.EndExclusive(old(Abs()), table, true)
    {
      if !(table in exclusive && exclusive[table].Never?) {
        return;
      }
      var end := Next();
      exclusive := exclusive[table := At(end)];
      assert Struct(Abs());
      CleanEnded();
    }

    /** Aborts the transactions that are too old. */
    method Tick() returns (ghost order: seq<Id>)
      requires Valid()
      modifies this
      ensures Valid() && Abs() == M.Tick(old(Abs()), order, true)
      ensures Visits(old(Abs()), MTick(order))
    {
      ClockKeeps(Abs(), clock + 1);
      clock := clock + 1;
      ghost var s := Abs();
      order := [];
      var todo := actvTran.Keys;
      while todo != {}
        invariant Valid() && Abs() == AbortAged(s, order, true) && clock == s.clock
        invariant todo <= actvTran.Keys && (forall u | u in s.actv :: u in todo || u in order)
      {
        var u := Choose(todo);
        AbortAgedAppend(s, order, u);
        AbortShrinks(Abs(), u, true);
        if clock - actvTran[u].birth >= MAX_AGE {
          var _ := Abort(u);
        }
        todo := todo - {u};
        order := order + [u];
      }
    }
  
    // ----- consistency --------------------------------------------------------------------------------

    /** Rule 1: committed transactions are newer than the oldest active one. */
    method VerifyCommitted(actual: Time) returns (errors: seq<string>)
      ensures errors == [] <==> (actual.At? ==> forall k | k in cmtdTran :: Before(actual, cmtdTran[k].end))
    {
      errors := [];
      if actual.At? {
        var todo := cmtdTran.Keys;
        while todo != {}
          invariant todo <= cmtdTran.Keys
          invariant errors == [] <==> forall k | k in cmtdTran && k !in todo :: Before(actual, cmtdTran[k].end)
        {
          var k := Choose(todo);
          todo := todo - {k};
          if !Before(actual, cmtdTran[k].end) {
            errors := errors + ["committed transaction is not newer than oldest active transaction"];
          }
        }
      }
    }

    /** Rule 2: bytable only has entries of transactions that are active or committed. */
    method VerifyEntries() returns (errors: seq<string>)
      ensures errors == [] <==> forall q | q in bytable :: Known(Abs(), q.1)
    {
      errors := [];
      var todo := bytable.Keys;
      while todo != {}
        invariant todo <= bytable.Keys
        invariant errors == [] <==> forall q | q in bytable && q !in todo :: Known(Abs(), q.1)
      {
        var q := Choose(todo);
        todo := todo - {q};
        if q.1 !in actvTran && q.1 !in cmtdTran {
          errors := errors + ["bytable references transaction which is not in actvTran or cmtdTran"];
        }
      }
    }

    /** Reports an error exactly when a rule is broken; never on a valid checker. */
    method VerifyConsistency() returns (errors: seq<string>)
      ensures errors == [] <==> Consistent(Abs())
      ensures Valid() ==> errors == []
    {
      errors := [];
      var actual := FindOldest();
      if actvTran == map[] {
        if !oldest.Never? {
          errors := errors + ["oldest should be MaxInt when no active transactions"];
        }
      } else if !oldest.Never? && oldest != actual {
        errors := errors + ["oldest is not the actual oldest active transaction"];
      }
      var errors1 := VerifyCommitted(actual);
      var errors2 := VerifyEntries();
      errors := errors + errors1 + errors2;
      if Valid() {
        InvariantIsConsistent(Abs());
      }
    }
  }
}
