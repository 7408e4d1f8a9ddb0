/** Structural invariants of the checker, and the relation between the states before
    and after any number of aborts, conflict marks and clean-ups.
 */
module CheckInvariant {
  import opened CheckModel

  /** What every reachable state satisfies, with or without pruning. */
  ghost predicate Struct(s: State) {
    && (forall k | k in s.actv :: k <= s.seqno && s.actv[k].end.Never? &&
          (s.actv[k].hasUpdates ==> s.actv[k].readConflict == ""))
    && (forall k | k in s.cmtd :: k !in s.actv && s.cmtd[k].hasUpdates &&
          s.cmtd[k].end.At? && k < s.cmtd[k].end.n <= s.seqno)
    && (forall k, j | k in s.cmtd && j in s.actv :: s.cmtd[k].end != At(j))
    && (forall p | p in s.acts :: Known(s, p.1) && (Wrote(s.acts[p]) ==> TranOf(s, p.1).hasUpdates))
    && (forall x | x in s.excl && s.excl[x].At? :: s.excl[x].n <= s.seqno)
    && (s.oldest.At? ==> s.oldest.n in s.actv)
    && (forall k | k in s.actv && s.oldest.At? :: s.oldest.n <= k)
  }

  /** Only what some active transaction overlaps is remembered. */
  ghost predicate Pruned(s: State) {
    && (s.oldest.Never? ==> s.cmtd == map[])
    && (forall k | k in s.cmtd :: Before(s.oldest, s.cmtd[k].end))
  }

  ghost predicate Marked(a: Tran, b: Tran) {
    && b == a.(readConflict := b.readConflict)
    && (a.readConflict != "" ==> b.readConflict != "")
    && (a.hasUpdates ==> b.readConflict == a.readConflict)
  }

  /** `s'` follows from `s` by aborting or marking active transactions and by forgetting
      entries that end before every transaction still active. */
  ghost predicate Shrunk(s: State, s': State) {
    && s'.seqno == s.seqno && s'.clock == s.clock
    && (forall k | k in s'.actv :: k in s.actv && Marked(s.actv[k], s'.actv[k]))
    && (forall k | k in s'.cmtd :: k in s.cmtd && s'.cmtd[k] == s.cmtd[k])
    && (forall p | p in s'.acts :: p in s.acts && s'.acts[p] == s.acts[p])
    && (forall p | p in s.acts && Known(s', p.1) :: p in s'.acts)
    && (forall x | x in s'.excl :: x in s.excl && s'.excl[x] == s.excl[x])
    && (forall k, j | k in s.cmtd && k !in s'.cmtd && j in s'.actv :: Before(s.cmtd[k].end, At(j)))
    && (forall x, j | x in s.excl && x !in s'.excl && j in s'.actv :: Before(s.excl[x], At(j)))
  }

  lemma ShrunkTrans(a: State, b: State, c: State)
    requires Struct(a) && Struct(b) && Struct(c)
    requires Shrunk(a, b) && Shrunk(b, c)
    ensures Shrunk(a, c)
  {
    forall p | p in a.acts && Known(c, p.1) ensures p in c.acts {
      assert Known(b, p.1);
      assert p in b.acts;
    }
  }

  // ----- clean-up and aborts ---------------------------------------------------

  lemma CleanEndedStruct(s: State, s': State, prune: bool)
    requires Struct(s) && s' == CleanEnded(s, prune)
    ensures Struct(s')
  {
  }

  lemma CleanEndedPrunes(s: State, s': State)
    requires Struct(s) && s' == CleanEnded(s, true)
    ensures Pruned(s')
  {
    if s'.oldest.Never? {
      assert forall k | k in s.cmtd :: Before(s.cmtd[k].end, Never);
      assert s'.cmtd == map[];
    }
  }

  lemma CleanEndedForgets(s: State, s': State, prune: bool)
    requires Struct(s) && s' == CleanEnded(s, prune)
    ensures Shrunk(s, s')
  {
    var o := s'.oldest;
    assert forall j | j in s.actv :: o.At? && o.n <= j;
    forall k, j | k in s.cmtd && k !in s'.cmtd && j in s'.actv ensures Before(s.cmtd[k].end, At(j)) {
      assert Before(s.cmtd[k].end, o);
    }
    forall x, j | x in s.excl && x !in s'.excl && j in s'.actv ensures Before(s.excl[x], At(j)) {
      assert Before(s.excl[x], o);
    }
  }

  lemma CleanEndedShrinks(s: State, prune: bool)
    requires Struct(s)
    ensures Struct(CleanEnded(s, prune)) && Shrunk(s, CleanEnded(s, prune))
    ensures CleanEnded(s, prune).actv == s.actv
    ensures prune ==> Pruned(CleanEnded(s, prune))
  {
    var s' := CleanEnded(s, prune);
    CleanEndedStruct(s, s', prune);
    CleanEndedForgets(s, s', prune);
    if prune { CleanEndedPrunes(s, s'); }
  }

  /** Dropping an active transaction and its actions. */
  lemma DropShrinks(s: State, id: Id, s1: State)
    requires Struct(s) && id in s.actv
    requires s1 == RemoveByTable(s, id).(actv := s.actv - {id}, oldest := s1.oldest)
    requires s1.oldest.Never? || (s1.oldest == s.oldest && s.oldest != At(id))
    ensures Struct(s1) && Shrunk(s, s1)
  {
  }

  lemma AbortShrinks(s: State, id: Id, prune: bool)
    requires Struct(s)
    ensures Struct(Abort(s, id, prune)) && Shrunk(s, Abort(s, id, prune))
    ensures Abort(s, id, prune).actv == s.actv - {id}
    ensures prune && Pruned(s) ==> Pruned(Abort(s, id, prune))
  {
    if id !in s.actv {
      assert s.actv - {id} == s.actv;
    } else if s.oldest == At(id) || s.oldest.Never? {
      var s1 := RemoveByTable(s, id).(actv := s.actv - {id}, oldest := Never);
      DropShrinks(s, id, s1);
      CleanEndedShrinks(s1, prune);
      ShrunkTrans(s, s1, CleanEnded(s1, prune));
    } else {
      DropShrinks(s, id, RemoveByTable(s, id).(actv := s.actv - {id}));
    }
  }

  lemma SetConflictShrinks(s: State, id: Id, why: string)
    requires Struct(s) && id in s.actv && !s.actv[id].hasUpdates && why != ""
    ensures var s' := SetConflict(s, id, why);
            Struct(s') && Shrunk(s, s') && (Pruned(s) ==> Pruned(s'))
  {
  }

  lemma Abort1OfShrinks(s: State, t1: Id, t2: Id, act1: string, act2: string, table: string,
                        head: bool, prune: bool)
    requires Struct(s) && t1 in s.actv && Known(s, t2)
    ensures var s' := Abort1Of(s, t1, t2, act1, act2, table, head, prune);
            Struct(s') && Shrunk(s, s') && (prune && Pruned(s) ==> Pruned(s'))
  {
    if !s.actv[t1].hasUpdates {
      SetConflictShrinks(s, t1, Message(act1, act2, table));
    } else if !TranOf(s, t2).hasUpdates {
      SetConflictShrinks(s, t2, Message(act2, act1, table));
    } else if TranOf(s, t2).end.At? || head {
      AbortShrinks(s, t1, prune);
    } else {
      AbortShrinks(s, t2, prune);
    }
  }

  /** A conflict between two active updating transactions ends exactly one of them;
      otherwise nobody is aborted unless the other one has committed. */
  lemma Abort1OfAbortsExactlyOne(s: State, t1: Id, t2: Id, act1: string, act2: string, table: string,
                                 head: bool, prune: bool)
    requires Struct(s) && t1 in s.actv && Known(s, t2) && t1 != t2
    ensures var s' := Abort1Of(s, t1, t2, act1, act2, table, head, prune);
            var both := s.actv[t1].hasUpdates && TranOf(s, t2).hasUpdates;
            && (both && t2 in s.actv ==> s'.actv == s.actv - {if head then t1 else t2})
            && (both && t2 in s.cmtd ==> s'.actv == s.actv - {t1})
            && (!both ==> s'.actv.Keys == s.actv.Keys)
            && (!both ==> exists k | k in {t1, t2} ::
                  k in s.actv && !s.actv[k].hasUpdates && s'.actv[k].readConflict != "")
  {
    if !s.actv[t1].hasUpdates {
      assert t1 in {t1, t2};
    } else if !TranOf(s, t2).hasUpdates {
      assert t2 in {t1, t2};
    } else if TranOf(s, t2).end.At? || head {
      AbortShrinks(s, t1, prune);
    } else {
      AbortShrinks(s, t2, prune);
    }
  }

  // ----- the conflict loop -------------------------------------------------------

  lemma VisitShrinks(s: State, t: Id, table: string, a: Action, u: Id, head: bool, prune: bool)
    requires Struct(s) && t in s.actv
    ensures var s' := Visit(s, t, table, a, u, head, prune);
            Struct(s') && Shrunk(s, s') && (prune && Pruned(s) ==> Pruned(s'))
  {
    if Conflict(s, t, table, a, u) {
      Abort1OfShrinks(s, t, u, ActName(a, ActsOf(s, table, u)), OtherName(a), table, head, prune);
    }
  }

  lemma {:induction false} CheckAllShrinks(s: State, t: Id, table: string, a: Action, order: seq<Id>,
                                           heads: set<Id>, prune: bool)
    requires Struct(s)
    ensures var s' := CheckAll(s, t, table, a, order, heads, prune);
            Struct(s') && Shrunk(s, s') && (prune && Pruned(s) ==> Pruned(s'))
    decreases order
  {
    if order != [] && t in s.actv {
      var s1 := Visit(s, t, table, a, order[0], order[0] in heads, prune);
      VisitShrinks(s, t, table, a, order[0], order[0] in heads, prune);
      CheckAllShrinks(s1, t, table, a, order[1..], heads, prune);
      ShrunkTrans(s, s1, CheckAll(s1, t, table, a, order[1..], heads, prune));
    }
  }

  /** The clash of `t` with `u` has been dealt with: the one whose reads are
      overtaken can no longer commit updates. */
  ghost predicate Settled(s: State, t: Id, table: string, a: Action, u: Id)
    requires t in s.actv
  {
    Conflict(s, t, table, a, u) ==>
      if a.Read? then s.actv[t].readConflict != "" else u in s.actv && s.actv[u].readConflict != ""
  }

  lemma ConflictPersists(s: State, s': State, t: Id, table: string, a: Action, u: Id)
    requires Struct(s) && Struct(s') && Shrunk(s, s') && t in s'.actv
    requires Conflict(s', t, table, a, u)
    ensures Conflict(s, t, table, a, u)
  {
    assert Known(s', u) && Known(s, u);
    assert TranOf(s, u).end == TranOf(s', u).end;
    assert TranOf(s, t).end == TranOf(s', t).end;
    assert ActsOf(s', table, u) == ActsOf(s, table, u);
  }

  lemma SettledPersists(s: State, s': State, t: Id, table: string, a: Action, u: Id)
    requires Struct(s) && Struct(s') && Shrunk(s, s') && t in s'.actv
    requires t in s.actv && Settled(s, t, table, a, u)
    ensures Settled(s', t, table, a, u)
  {
    if Conflict(s', t, table, a, u) {
      ConflictPersists(s, s', t, table, a, u);
    }
  }

  lemma VisitSettles(s: State, t: Id, table: string, a: Action, u: Id, head: bool, prune: bool)
    requires Struct(s) && t in s.actv
    requires a.Write? ==> s.actv[t].hasUpdates
    ensures var s' := Visit(s, t, table, a, u, head, prune);
            t in s'.actv ==> Settled(s', t, table, a, u)
  {
    var s' := Visit(s, t, table, a, u, head, prune);
    VisitShrinks(s, t, table, a, u, head, prune);
    if t in s'.actv && Conflict(s', t, table, a, u) {
      ConflictPersists(s, s', t, table, a, u);
      Abort1OfAbortsExactlyOne(s, t, u, ActName(a, ActsOf(s, table, u)), OtherName(a), table, head, prune);
    }
  }

  lemma {:induction false} CheckAllSettles(s: State, t: Id, table: string, a: Action, order: seq<Id>,
                                           heads: set<Id>, prune: bool)
    requires Struct(s)
    requires a.Write? && t in s.actv ==> s.actv[t].hasUpdates
    ensures var s' := CheckAll(s, t, table, a, order, heads, prune);
            t in s'.actv ==> forall u | u in order :: Settled(s', t, table, a, u)
    decreases order
  {
    var s' := CheckAll(s, t, table, a, order, heads, prune);
    if order != [] && t in s.actv {
      var v := order[0];
      var s1 := Visit(s, t, table, a, v, v in heads, prune);
      VisitShrinks(s, t, table, a, v, v in heads, prune);
      VisitSettles(s, t, table, a, v, v in heads, prune);
      CheckAllShrinks(s1, t, table, a, order[1..], heads, prune);
      CheckAllSettles(s1, t, table, a, order[1..], heads, prune);
      if t in s'.actv {
        SettledPersists(s1, s', t, table, a, v);
        forall u | u in order ensures Settled(s', t, table, a, u) {
          if u != v { assert u in order[1..]; }
        }
      }
    }
  }

  // ----- every message keeps the invariants ----------------------------------------

  lemma PutActsKeeps(s: State, t: Id, table: string, acts: Acts)
    requires Struct(s) && t in s.actv && (Wrote(acts) ==> s.actv[t].hasUpdates)
    ensures Struct(PutActs(s, t, table, acts)) && (Pruned(s) ==> Pruned(PutActs(s, t, table, acts)))
  {
  }

  lemma CountedKeeps(s: State, t: Id, table: string, n: int)
    requires Struct(s) && t in s.actv
    ensures Struct(Counted(s, t, table, n)) && (Pruned(s) ==> Pruned(Counted(s, t, table, n)))
  {
    PutActsKeeps(s, t, table, ActsOf(s, table, t));
  }

  /** The two outcomes of recording a read. */
  lemma SaveReadIs(s: State, t: Id, table: string, a: Action, o: Oracle, n: int, prune: bool)
    requires t in s.actv && a.Read? && n == s.actv[t].readCount + o.inc
    ensures n >= READ_MAX ==> Save(s, t, table, a, o, prune) == Abort(Counted(s, t, table, n), t, prune)
    ensures n < READ_MAX ==>
      Save(s, t, table, a, o, prune) ==
      PutActs(Counted(s, t, table, n), t, table, AddScan(ActsOf(s, table, t), a.ix, a.from, a.to))
  {
  }

  lemma SaveReadKeeps(s: State, t: Id, table: string, ix: nat, from: Key, to: Key, inc: int, prune: bool)
    requires Struct(s) && t in s.actv
    ensures var s' := SaveRead(s, t, table, ix, from, to, inc, prune);
            Struct(s') && (prune && Pruned(s) ==> Pruned(s'))
  {
    var n := s.actv[t].readCount + inc;
    var s1 := Counted(s, t, table, n);
    var acts := AddScan(ActsOf(s, table, t), ix, from, to);
    assert Struct(s1) && (Pruned(s) ==> Pruned(s1)) && t in s1.actv &&
           (Wrote(acts) ==> s1.actv[t].hasUpdates) by {
      CountedKeeps(s, t, table, n);
      if Wrote(acts) { assert Wrote(ActsOf(s, table, t)); }
    }
    if n >= READ_MAX {
      assert SaveRead(s, t, table, ix, from, to, inc, prune) == Abort(s1, t, prune);
      AbortShrinks(s1, t, prune);
    } else {
      assert SaveRead(s, t, table, ix, from, to, inc, prune) == PutActs(s1, t, table, acts);
      PutActsKeeps(s1, t, table, acts);
    }
  }

  lemma SaveWriteKeeps(s: State, t: Id, table: string, deletes: seq<Key>, outputs: seq<Key>, room: bool,
                       prune: bool)
    requires Struct(s) && t in s.actv && s.actv[t].hasUpdates
    ensures var s' := SaveWrite(s, t, table, deletes, outputs, room, prune);
            Struct(s') && (prune && Pruned(s) ==> Pruned(s'))
  {
    if !room {
      AbortShrinks(s, t, prune);
    }
  }

  lemma MarkUpdatesKeeps(s: State, t: Id)
    requires Struct(s) && t in s.actv && s.actv[t].readConflict == ""
    ensures Struct(MarkUpdates(s, t)) && (Pruned(s) ==> Pruned(MarkUpdates(s, t)))
  {
  }

  lemma CheckedKeeps(s: State, t: Id, table: string, a: Action, o: Oracle, prune: bool)
    requires Struct(s) && (a.Write? && t in s.actv ==> s.actv[t].hasUpdates)
    ensures Struct(Checked(s, t, table, a, o, prune))
    ensures prune && Pruned(s) ==> Pruned(Checked(s, t, table, a, o, prune))
  {
    var s1 := CheckAll(s, t, table, a, o.order, o.heads, prune);
    CheckAllShrinks(s, t, table, a, o.order, o.heads, prune);
    if t in s1.actv {
      if a.Read? {
        SaveReadKeeps(s1, t, table, a.ix, a.from, a.to, o.inc, prune);
      } else {
        SaveWriteKeeps(s1, t, table, a.deletes, a.outputs, o.room, prune);
      }
    }
  }

  lemma DoActKeeps(s: State, t: Id, table: string, a: Action, o: Oracle, prune: bool)
    requires Struct(s)
    ensures Struct(DoAct(s, t, table, a, o, prune))
    ensures prune && Pruned(s) ==> Pruned(DoAct(s, t, table, a, o, prune))
  {
    if t !in s.actv {
    } else if a.Read? {
      CheckedKeeps(s, t, table, a, o, prune);
    } else if s.actv[t].readConflict != "" && !s.actv[t].hasUpdates {
      AbortShrinks(s, t, prune);
    } else {
      MarkUpdatesKeeps(s, t);
      AbortShrinks(MarkUpdates(s, t), t, prune);
      CheckedKeeps(MarkUpdates(s, t), t, table, a, o, prune);
    }
  }

  lemma WriterKeeps(s: State, id: Id, s': State)
    requires Struct(s) && id in s.actv && s.actv[id].hasUpdates && s' == Committed(s, id)
    ensures Struct(s') && (Pruned(s) && s'.oldest.At? ==> Pruned(s'))
  {
    assert forall p | p in s'.acts :: p in s.acts && Wrote(s'.acts[p]) == Wrote(s.acts[p]);
  }

  lemma ReaderKeeps(s: State, id: Id, s': State)
    requires Struct(s) && id in s.actv && !s.actv[id].hasUpdates && s' == Committed(s, id)
    ensures Struct(s') && (Pruned(s) && s'.oldest.At? ==> Pruned(s'))
  {
    assert s'.cmtd == s.cmtd;
  }

  lemma CommittedKeeps(s: State, id: Id)
    requires Struct(s) && id in s.actv
    ensures Struct(Committed(s, id))
    ensures Pruned(s) && Committed(s, id).oldest.At? ==> Pruned(Committed(s, id))
  {
    if s.actv[id].hasUpdates {
      WriterKeeps(s, id, Committed(s, id));
    } else {
      ReaderKeeps(s, id, Committed(s, id));
    }
  }

  lemma CommitKeeps(s: State, id: Id, prune: bool)
    requires Struct(s)
    ensures Struct(Commit(s, id, prune))
    ensures prune && Pruned(s) ==> Pruned(Commit(s, id, prune))
  {
    if id in s.actv {
      var s2 := Committed(s, id);
      CommittedKeeps(s, id);
      CleanEndedShrinks(s2, prune);
    }
  }

  lemma {:induction false} AbortWritersShrinks(s: State, table: string, order: seq<Id>, prune: bool)
    requires Struct(s)
    ensures var s' := AbortWriters(s, table, order, prune);
            Struct(s') && Shrunk(s, s') && (prune && Pruned(s) ==> Pruned(s'))
    ensures var s' := AbortWriters(s, table, order, prune);
            forall u | u in order && u in s'.actv :: !Wrote(ActsOf(s', table, u))
    decreases order
  {
    if order != [] {
      var v := order[0];
      var s1 := if Wrote(ActsOf(s, table, v)) then Abort(s, v, prune) else s;
      AbortShrinks(s, v, prune);
      AbortWritersShrinks(s1, table, order[1..], prune);
      var s' := AbortWriters(s1, table, order[1..], prune);
      ShrunkTrans(s, s1, s');
      forall u | u in order && u in s'.actv ensures !Wrote(ActsOf(s', table, u)) {
        if u != v { assert u in order[1..]; }
      }
    }
  }

  lemma AddExclusiveKeeps(s: State, table: string, order: seq<Id>, prune: bool)
    requires Struct(s)
    ensures Struct(AddExclusive(s, table, order, prune))
    ensures prune && Pruned(s) ==> Pruned(AddExclusive(s, table, order, prune))
  {
    AbortWritersShrinks(s, table, order, prune);
  }

  lemma EndExclusiveKeeps(s: State, table: string, prune: bool)
    requires Struct(s)
    ensures Struct(EndExclusive(s, table, prune))
    ensures prune && Pruned(s) ==> Pruned(EndExclusive(s, table, prune))
  {
    assert Struct(Released(s, table));
    CleanEndedShrinks(Released(s, table), prune);
  }

  lemma {:induction false} AbortAgedShrinks(s: State, order: seq<Id>, prune: bool)
    requires Struct(s)
    ensures var s' := AbortAged(s, order, prune);
            Struct(s') && Shrunk(s, s') && (prune && Pruned(s) ==> Pruned(s'))
    decreases order
  {
    if order != [] {
      var t := order[0];
      var s1 := if t in s.actv && s.clock - s.actv[t].birth >= MAX_AGE then Abort(s, t, prune) else s;
      AbortShrinks(s, t, prune);
      AbortAgedShrinks(s1, order[1..], prune);
      ShrunkTrans(s, s1, AbortAged(s1, order[1..], prune));
    }
  }

  lemma ClockKeeps(s: State, n: int)
    requires Struct(s)
    ensures Struct(s.(clock := n))
  {
  }

  lemma StartKeeps(s: State)
    requires Struct(s)
    ensures Struct(StartTran(s)) && (Pruned(s) ==> Pruned(StartTran(s)))
  {
  }

  lemma TickKeeps(s: State, order: seq<Id>, prune: bool)
    requires Struct(s)
    ensures Struct(Tick(s, order, prune)) && (prune && Pruned(s) ==> Pruned(Tick(s, order, prune)))
  {
    ClockKeeps(s, s.clock + 1);
    AbortAgedShrinks(s.(clock := s.clock + 1), order, prune);
  }

  lemma StepKeeps(s: State, m: Msg, prune: bool)
    requires Struct(s)
    ensures Struct(Step(s, m, prune))
    ensures prune && Pruned(s) ==> Pruned(Step(s, m, prune))
  {
    match m
    case MStart => StartKeeps(s);
    case MAct(t, table, a, o) => DoActKeeps(s, t, table, a, o, prune);
    case MCommit(t) => CommitKeeps(s, t, prune);
    case MAbort(t) => AbortShrinks(s, t, prune);
    case MAddExclusive(table, order) => AddExclusiveKeeps(s, table, order, prune);
    case MEndExclusive(table) => EndExclusiveKeeps(s, table, prune);
    case MTick(order) => TickKeeps(s, order, prune);
  }

  // ----- what VerifyConsistency in check_verify.go checks ---------------------------

  /** The rules that VerifyConsistency checks. */
  ghost predicate Consistent(s: State) {
    var actual := OldestStart(s.actv);
    && (if s.actv == map[] then s.oldest.Never? else s.oldest.Never? || s.oldest == actual)
    && (actual.At? ==> forall k | k in s.cmtd :: Before(actual, s.cmtd[k].end))
    && (forall q | q in s.acts :: Known(s, q.1))
  }

  lemma InvariantIsConsistent(s: State)
    requires Struct(s) && Pruned(s)
    ensures Consistent(s)
  {
    if s.oldest.At? {
      assert OldestStart(s.actv) == s.oldest;
    }
  }

  /** Any sequence of messages whatever leaves the checker consistent. */
  lemma {:induction false} StepsStayConsistent(s: State, msgs: seq<Msg>)
    requires Struct(s) && Pruned(s)
    ensures Struct(StepAll(s, msgs)) && Pruned(StepAll(s, msgs)) && Consistent(StepAll(s, msgs))
    decreases msgs
  {
    if msgs == [] {
      InvariantIsConsistent(s);
    } else {
      StepKeeps(s, msgs[0], true);
      StepsStayConsistent(Step(s, msgs[0], true), msgs[1..]);
    }
  }

  ghost function StepAll(s: State, msgs: seq<Msg>): State
    decreases msgs
  {
    if msgs == [] then s else StepAll(Step(s, msgs[0], true), msgs[1..])
  }
}
