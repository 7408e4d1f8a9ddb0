/** Exclusive access over every run: nobody's writes to a table are committed while
    somebody else has exclusive access to it.
 */
module CheckExclusive {
  import opened CheckModel
  import opened CheckInvariant
  import opened CheckSerial

  /** Exclusive access to a table, from after sequence number `from` until time `to`. */
  datatype Episode = Episode(table: string, from: int, to: Time)

  function Closed(eps: seq<Episode>, table: string, n: int): seq<Episode> {
    seq(|eps|, i requires 0 <= i < |eps| =>
      if eps[i].table == table && eps[i].to.Never? then eps[i].(to := At(n)) else eps[i])
  }

  ghost function NextEpisodes(s: State, eps: seq<Episode>, m: Msg): seq<Episode> {
    match m
    case MAddExclusive(table, _) => if Exclusive(s, table) then eps else eps + [Episode(table, s.seqno, Never)]
    case MEndExclusive(table) => if Exclusive(s, table) then Closed(eps, table, s.seqno + 2) else eps
    case _ => eps
  }

  ghost function Episodes(msgs: seq<Msg>): seq<Episode> {
    if msgs == [] then []
    else
      var n := |msgs| - 1;
      NextEpisodes(Run(msgs[..n]).ck, Episodes(msgs[..n]), msgs[n])
  }

  // ----- what a step does to exclusive access ------------------------------------------

  /** Nobody gains write access and nothing stops being excluded for those still active. */
  ghost predicate Guarded(s: State, s': State) {
    && s.seqno <= s'.seqno
    && (forall k | k in s'.actv :: k in s.actv)
    && (forall k, x | k in s'.actv && Excluded(s, k, x) :: Excluded(s', k, x) && (Wrote(ActsOf(s', x, k)) ==> Wrote(ActsOf(s, x, k))))
    && (forall x | Exclusive(s, x) :: Exclusive(s', x))
  }

  lemma ShrunkGuarded(s: State, s': State)
    requires Struct(s) && Struct(s') && Shrunk(s, s')
    requires forall x | x in s.excl && x !in s'.excl :: s.excl[x].At?
    ensures Guarded(s, s')
  {
  }

  /** Exclusives that have not ended are never forgotten. */
  ghost predicate KeepsOpen(s: State, s': State) {
    forall x | x in s.excl && s.excl[x].Never? :: x in s'.excl && s'.excl[x].Never?
  }

  lemma {:induction false} CheckAllKeepsOpen(s: State, t: Id, table: string, a: Action, order: seq<Id>, heads: set<Id>)
    ensures KeepsOpen(s, CheckAll(s, t, table, a, order, heads, true))
    decreases order
  {
    if order != [] && t in s.actv {
      CheckAllKeepsOpen(Visit(s, t, table, a, order[0], order[0] in heads, true), t, table, a, order[1..], heads);
    }
  }

  lemma {:induction false} AbortWritersKeepsOpen(s: State, table: string, order: seq<Id>)
    ensures KeepsOpen(s, AbortWriters(s, table, order, true))
    decreases order
  {
    if order != [] {
      var s1 := if Wrote(ActsOf(s, table, order[0])) then Abort(s, order[0], true) else s;
      AbortWritersKeepsOpen(s1, table, order[1..]);
    }
  }

  lemma {:induction false} AbortAgedKeepsOpen(s: State, order: seq<Id>)
    ensures KeepsOpen(s, AbortAged(s, order, true))
    decreases order
  {
    if order != [] {
      var t := order[0];
      var s1 := if t in s.actv && s.clock - s.actv[t].birth >= MAX_AGE then Abort(s, t, true) else s;
      AbortAgedKeepsOpen(s1, order[1..]);
    }
  }

  lemma GuardedTrans(a: State, b: State, c: State)
    requires Guarded(a, b) && Guarded(b, c)
    ensures Guarded(a, c)
  {
  }

  lemma AbortGuarded(s: State, t: Id)
    requires Struct(s)
    ensures Struct(Abort(s, t, true)) && Guarded(s, Abort(s, t, true))
  {
    AbortShrinks(s, t, true);
    ShrunkGuarded(s, Abort(s, t, true));
  }

  lemma CheckAllGuarded(s: State, t: Id, table: string, a: Action, o: Oracle)
    requires Struct(s)
    ensures var s1 := CheckAll(s, t, table, a, o.order, o.heads, true); Struct(s1) && Guarded(s, s1)
  {
    CheckAllShrinks(s, t, table, a, o.order, o.heads, true);
    CheckAllKeepsOpen(s, t, table, a, o.order, o.heads);
    ShrunkGuarded(s, CheckAll(s, t, table, a, o.order, o.heads, true));
  }

  lemma PutActsGuarded(s: State, s': State, t: Id, table: string, acts: Acts)
    requires t in s.actv && s'.actv.Keys == s.actv.Keys && s'.acts == s.acts[(table, t) := acts]
    requires s'.excl == s.excl && s'.seqno == s.seqno
    requires Wrote(acts) && Excluded(s, t, table) ==> Wrote(ActsOf(s, table, t))
    ensures Guarded(s, s')
  {
  }

  lemma SaveReadGuarded(s: State, t: Id, table: string, a: Action, o: Oracle)
    requires Struct(s) && t in s.actv && a.Read?
    ensures Guarded(s, Save(s, t, table, a, o, true))
  {
    var n := s.actv[t].readCount + o.inc;
    SaveReadIs(s, t, table, a, o, n, true);
    var s1 := Counted(s, t, table, n);
    PutActsGuarded(s, s1, t, table, ActsOf(s, table, t));
    if n >= READ_MAX {
      CountedKeeps(s, t, table, n);
      AbortGuarded(s1, t);
      GuardedTrans(s, s1, Abort(s1, t, true));
    } else {
      var acts := AddScan(ActsOf(s, table, t), a.ix, a.from, a.to);
      PutActsGuarded(s1, PutActs(s1, t, table, acts), t, table, acts);
      GuardedTrans(s, s1, PutActs(s1, t, table, acts));
    }
  }

  lemma SaveGuarded(s: State, t: Id, table: string, a: Action, o: Oracle)
    requires Struct(s) && t in s.actv && (a.Write? ==> s.actv[t].hasUpdates && !Excluded(s, t, table))
    ensures Guarded(s, Save(s, t, table, a, o, true))
  {
    if a.Read? {
      SaveReadGuarded(s, t, table, a, o);
    } else if !o.room {
      AbortGuarded(s, t);
    } else {
      PutActsGuarded(s, Save(s, t, table, a, o, true), t, table, AddKeys(ActsOf(s, table, t), a.deletes, a.outputs));
    }
  }

  lemma CheckedGuarded(s: State, t: Id, table: string, a: Action, o: Oracle)
    requires Struct(s) && t in s.actv && (a.Write? ==> s.actv[t].hasUpdates && !Excluded(s, t, table))
    ensures Guarded(s, Checked(s, t, table, a, o, true))
  {
    var s1 := CheckAll(s, t, table, a, o.order, o.heads, true);
    CheckAllGuarded(s, t, table, a, o);
    CheckAllShrinks(s, t, table, a, o.order, o.heads, true);
    if t in s1.actv {
      SaveGuarded(s1, t, table, a, o);
      GuardedTrans(s, s1, Checked(s, t, table, a, o, true));
    }
  }

  lemma DoActGuarded(s: State, t: Id, table: string, a: Action, o: Oracle)
    requires Struct(s)
    ensures Guarded(s, DoAct(s, t, table, a, o, true))
  {
    if t !in s.actv {
    } else if a.Read? {
      CheckedGuarded(s, t, table, a, o);
    } else if s.actv[t].readConflict != "" && !s.actv[t].hasUpdates {
      AbortGuarded(s, t);
    } else {
      var s0 := MarkUpdates(s, t);
      MarkUpdatesKeeps(s, t);
      assert Guarded(s, s0);
      if Excluded(s, t, table) {
        AbortGuarded(s0, t);
        GuardedTrans(s, s0, Abort(s0, t, true));
      } else {
        CheckedGuarded(s0, t, table, a, o);
        GuardedTrans(s, s0, Checked(s0, t, table, a, o, true));
      }
    }
  }

  lemma CommitGuarded(s: State, t: Id)
    requires Struct(s)
    ensures Guarded(s, Commit(s, t, true))
  {
    if t in s.actv {
      var s1 := Committed(s, t);
      CommittedKeeps(s, t);
      assert Guarded(s, s1);
      CleanEndedShrinks(s1, true);
      ShrunkGuarded(s1, CleanEnded(s1, true));
      GuardedTrans(s, s1, CleanEnded(s1, true));
    }
  }

  lemma TickGuarded(s: State, order: seq<Id>)
    requires Struct(s)
    ensures Guarded(s, Tick(s, order, true))
  {
    var s1 := s.(clock := s.clock + 1);
    assert Struct(s1) && Guarded(s, s1);
    AbortAgedShrinks(s1, order, true);
    AbortAgedKeepsOpen(s1, order);
    ShrunkGuarded(s1, AbortAged(s1, order, true));
    GuardedTrans(s, s1, AbortAged(s1, order, true));
  }

  // ----- the invariant ---------------------------------------------------------------------

  /** A transaction that started before the end of an episode can no longer write the table, nor has it. */
  ghost predicate Blocked(s: State, eps: seq<Episode>) {
    && (forall e | e in eps && e.to.Never? :: Exclusive(s, e.table))
    && (forall e | e in eps && e.to.At? :: e.to.n <= s.seqno)
    && (forall e, t | e in eps && t in s.actv :: e.to != At(t))
    && (forall e, t | e in eps && t in s.actv && Before(At(t), e.to) ::
          Excluded(s, t, e.table) && !Wrote(ActsOf(s, e.table, t)))
  }

  /** A place the transaction wrote belongs to a table on which its writes are recorded as such. */
  ghost predicate Traced(w: World) {
    forall t, l | t in w.ck.actv && l in Of(w.writes, t) :: Wrote(ActsOf(w.ck, l.table, t))
  }

  /** The guarantee: committed writes to the table lie outside the episode. */
  ghost predicate Outside(log: seq<Done>, eps: seq<Episode>) {
    forall d, e, l | d in log && e in eps && l in d.writes && l.table == e.table ::
      d.end <= e.from || (e.to.At? && e.to.n < d.id)
  }

  ghost predicate XInv(w: World, eps: seq<Episode>) {
    Inv(w) && Blocked(w.ck, eps) && Traced(w) && Outside(w.log, eps)
  }

  lemma GuardedBlocked(s: State, s': State, eps: seq<Episode>)
    requires Blocked(s, eps) && Guarded(s, s')
    ensures Blocked(s', eps)
  {
    forall e, t | e in eps && t in s'.actv && Before(At(t), e.to)
      ensures Excluded(s', t, e.table) && !Wrote(ActsOf(s', e.table, t))
    {
      assert Excluded(s, t, e.table);
    }
  }

  lemma StartBlocked(s: State, eps: seq<Episode>)
    requires Struct(s) && Blocked(s, eps)
    ensures Blocked(StartTran(s), eps)
  {
    var s', n := StartTran(s), s.seqno + 2;
    assert forall x, k :: ActsOf(s', x, k) == ActsOf(s, x, k);
    assert forall x :: ActsOf(s, x, n) == NO_ACTS;
    forall e, t | e in eps && t in s'.actv && Before(At(t), e.to)
      ensures Excluded(s', t, e.table) && !Wrote(ActsOf(s', e.table, t))
    {
      if t == n { assert e.to.Never? && Exclusive(s, e.table); } else { assert Excluded(s, t, e.table); }
    }
  }

  lemma OpenBlocked(s: State, eps: seq<Episode>, table: string, n: int)
    requires Blocked(s, eps) && (forall t | t in s.actv :: !Wrote(ActsOf(s, table, t)))
    ensures Blocked(s.(excl := s.excl[table := Never]), eps + [Episode(table, n, Never)])
  {
    var s' := s.(excl := s.excl[table := Never]);
    assert forall x, k :: ActsOf(s', x, k) == ActsOf(s, x, k);
    assert forall x, k | Excluded(s, k, x) :: Excluded(s', k, x);
    assert forall x | Exclusive(s, x) :: Exclusive(s', x);
  }

  lemma AddBlocked(s: State, eps: seq<Episode>, table: string, order: seq<Id>)
    requires Struct(s) && Blocked(s, eps) && !Exclusive(s, table)
    requires forall u | (table, u) in s.acts :: u in order
    ensures Blocked(AddExclusive(s, table, order, true), eps + [Episode(table, s.seqno, Never)])
  {
    var s1 := AbortWriters(s, table, order, true);
    AbortWritersShrinks(s, table, order, true);
    AbortWritersKeepsOpen(s, table, order);
    ShrunkGuarded(s, s1);
    GuardedBlocked(s, s1, eps);
    forall t | t in s1.actv ensures !Wrote(ActsOf(s1, table, t)) {
      if t !in order { assert (table, t) !in s.acts; }
    }
    OpenBlocked(s1, eps, table, s.seqno);
  }

  lemma ReleasedBlocks(s: State, eps: seq<Episode>, table: string, i: int, t: Id)
    requires Struct(s) && Blocked(s, eps) && Exclusive(s, table) && 0 <= i < |eps| && t in s.actv
    ensures var e, s1 := Closed(eps, table, s.seqno + 2)[i], Released(s, table);
      e.to != At(t) && (Before(At(t), e.to) ==> Excluded(s1, t, e.table) && !Wrote(ActsOf(s1, e.table, t)))
  {
    var e := Closed(eps, table, s.seqno + 2)[i];
    assert eps[i] in eps && eps[i].table == e.table;
    if Before(At(t), e.to) { assert Excluded(s, t, e.table) && !Wrote(ActsOf(s, e.table, t)); }
  }

  lemma EndBlocked(s: State, eps: seq<Episode>, table: string, s': State, eps1: seq<Episode>)
    requires Struct(s) && Blocked(s, eps) && Exclusive(s, table)
    requires s' == EndExclusive(s, table, true) && eps1 == Closed(eps, table, s.seqno + 2)
    ensures Blocked(s', eps1)
  {
    var s1 := Released(s, table);
    assert Struct(s1);
    forall e | e in eps1 ensures (e.to.Never? ==> Exclusive(s1, e.table)) && (e.to.At? ==> e.to.n <= s1.seqno) {
      var i :| 0 <= i < |eps1| && eps1[i] == e;
      assert eps[i] in eps;
    }
    forall e, t | e in eps1 && t in s1.actv
      ensures e.to != At(t) && (Before(At(t), e.to) ==> Excluded(s1, t, e.table) && !Wrote(ActsOf(s1, e.table, t)))
    {
      var i :| 0 <= i < |eps1| && eps1[i] == e;
      ReleasedBlocks(s, eps, table, i, t);
    }
    CleanEndedShrinks(s1, true);
    ShrunkGuarded(s1, CleanEnded(s1, true));
    GuardedBlocked(s1, CleanEnded(s1, true), eps1);
  }

  // ----- every run ---------------------------------------------------------------------------

  /** After an action, a transaction still active has traces of all it wrote. */
  lemma ActTraced(w: World, t: Id, table: string, a: Action, o: Oracle)
    requires Inv(w) && Traced(w)
    ensures Traced(After(w, DoAct(w.ck, t, table, a, o, true), t, table, a))
  {
    var s' := DoAct(w.ck, t, table, a, o, true);
    var w' := After(w, s', t, table, a);
    DoActGrows(w.ck, t, table, a, o);
    forall k, l | k in s'.actv && l in Of(w'.writes, k) ensures Wrote(ActsOf(s', l.table, k)) {
      if l in Of(w.writes, k) { assert Wrote(ActsOf(w.ck, l.table, k)); }
    }
  }

  /** What is recorded of the transactions that remain active only grows. */
  ghost predicate Grows(s: State, s': State) {
    && (forall k | k in s'.actv :: k in s.actv)
    && (forall k, x | k in s'.actv && Wrote(ActsOf(s, x, k)) :: Wrote(ActsOf(s', x, k)))
  }

  lemma ShrunkGrows(s: State, s': State)
    requires Struct(s) && Struct(s') && Shrunk(s, s')
    ensures Grows(s, s')
  {
    ShrunkIsBelow(s, s');
  }

  lemma SaveReadGrows(s: State, t: Id, table: string, a: Action, o: Oracle, n: int)
    requires Struct(s) && t in s.actv && a.Read? && n == s.actv[t].readCount + o.inc
    ensures Grows(s, Save(s, t, table, a, o, true))
  {
    SaveReadIs(s, t, table, a, o, n, true);
    CountedGrows(s, t, table, n);
    if n >= READ_MAX {
      CountedKeeps(s, t, table, n);
      AbortShrinks(Counted(s, t, table, n), t, true);
      ShrunkGrows(Counted(s, t, table, n), Abort(Counted(s, t, table, n), t, true));
    }
  }

  lemma CountedGrows(s: State, t: Id, table: string, n: int)
    requires t in s.actv
    ensures Grows(s, Counted(s, t, table, n))
  {
  }

  lemma SaveGrows(s: State, t: Id, table: string, a: Action, o: Oracle)
    requires Struct(s) && t in s.actv
    ensures var s' := Save(s, t, table, a, o, true);
      Grows(s, s') && (a.Write? && (a.deletes != [] || a.outputs != []) && t in s'.actv ==> Wrote(ActsOf(s', table, t)))
  {
    if a.Read? {
      SaveReadGrows(s, t, table, a, o, s.actv[t].readCount + o.inc);
    } else if !o.room {
      AbortShrinks(s, t, true);
      ShrunkGrows(s, Abort(s, t, true));
    }
  }

  lemma CheckedGrows(s: State, t: Id, table: string, a: Action, o: Oracle)
    requires Struct(s)
    ensures var s' := Checked(s, t, table, a, o, true);
      Grows(s, s') && (a.Write? && (a.deletes != [] || a.outputs != []) && t in s'.actv ==> Wrote(ActsOf(s', table, t)))
  {
    var s1 := CheckAll(s, t, table, a, o.order, o.heads, true);
    CheckAllShrinks(s, t, table, a, o.order, o.heads, true);
    ShrunkGrows(s, s1);
    if t in s1.actv { SaveGrows(s1, t, table, a, o); }
  }

  lemma DoActGrows(s: State, t: Id, table: string, a: Action, o: Oracle)
    requires Struct(s)
    ensures var s' := DoAct(s, t, table, a, o, true);
      Grows(s, s') && (a.Write? && (a.deletes != [] || a.outputs != []) && t in s'.actv ==> Wrote(ActsOf(s', table, t)))
  {
    if t !in s.actv {
    } else if a.Read? {
      CheckedGrows(s, t, table, a, o);
    } else if s.actv[t].readConflict != "" && !s.actv[t].hasUpdates {
      AbortShrinks(s, t, true);
      ShrunkGrows(s, Abort(s, t, true));
    } else {
      MarkUpdatesKeeps(s, t);
      if Excluded(s, t, table) {
        AbortShrinks(MarkUpdates(s, t), t, true);
        ShrunkGrows(MarkUpdates(s, t), Abort(MarkUpdates(s, t), t, true));
      } else {
        CheckedGrows(MarkUpdates(s, t), t, table, a, o);
      }
    }
  }

  lemma CommitOutside(w: World, eps: seq<Episode>, t: Id)
    requires XInv(w, eps) && t in w.ck.actv
    ensures Outside(w.log + [Finished(w, t)], eps)
  {
    var c := Finished(w, t);
    forall d, e, l | d in w.log + [c] && e in eps && l in d.writes && l.table == e.table
      ensures d.end <= e.from || (e.to.At? && e.to.n < d.id)
    {
      if d !in w.log { assert Wrote(ActsOf(w.ck, e.table, t)); }
    }
  }

  lemma GrowsTraced(w: World, w': World)
    requires Traced(w) && Grows(w.ck, w'.ck) && w'.writes == w.writes
    ensures Traced(w')
  {
  }

  lemma GrowsTrans(a: State, b: State, c: State)
    requires Grows(a, b) && Grows(b, c)
    ensures Grows(a, c)
  {
  }

  lemma CommittedGrows(s: State, t: Id)
    requires t in s.actv
    ensures Grows(s, Committed(s, t))
  {
    var s' := Committed(s, t);
    forall k, x | k in s'.actv && Wrote(ActsOf(s, x, k)) ensures Wrote(ActsOf(s', x, k)) {
      assert ActsOf(s', x, k) == ActsOf(s, x, k);
    }
  }

  lemma CleanEndedGrows(s: State)
    requires Struct(s)
    ensures Grows(s, CleanEnded(s, true))
  {
    CleanEndedShrinks(s, true);
    ShrunkGrows(s, CleanEnded(s, true));
  }

  lemma CommitGrows(s: State, t: Id)
    requires Struct(s)
    ensures Grows(s, Commit(s, t, true))
  {
    if t in s.actv {
      CommittedGrows(s, t);
      CommittedKeeps(s, t);
      CleanEndedGrows(Committed(s, t));
      GrowsTrans(s, Committed(s, t), CleanEnded(Committed(s, t), true));
    }
  }

  lemma EndGrows(s: State, table: string)
    requires Struct(s)
    ensures Grows(s, EndExclusive(s, table, true))
  {
    if Exclusive(s, table) {
      assert Struct(Released(s, table));
      assert Grows(s, Released(s, table));
      CleanEndedGrows(Released(s, table));
      GrowsTrans(s, Released(s, table), CleanEnded(Released(s, table), true));
    }
  }

  lemma TickGrows(s: State, order: seq<Id>)
    requires Struct(s)
    ensures Grows(s, Tick(s, order, true))
  {
    var s1 := s.(clock := s.clock + 1);
    ClockKeeps(s, s.clock + 1);
    assert Grows(s, s1);
    AbortAgedShrinks(s1, order, true);
    ShrunkGrows(s1, AbortAged(s1, order, true));
    GrowsTrans(s, s1, AbortAged(s1, order, true));
  }

  lemma ClosedOutside(log: seq<Done>, eps: seq<Episode>, table: string, n: int)
    requires Outside(log, eps)
    ensures Outside(log, Closed(eps, table, n))
  {
    var eps' := Closed(eps, table, n);
    forall d, e, l | d in log && e in eps' && l in d.writes && l.table == e.table
      ensures d.end <= e.from || (e.to.At? && e.to.n < d.id)
    {
      var i :| 0 <= i < |eps'| && eps'[i] == e;
      assert eps[i] in eps;
    }
  }

  lemma StartX(w: World, eps: seq<Episode>)
    requires XInv(w, eps)
    ensures XInv(Next(w, MStart), eps)
  {
    StartInv(w);
    StartBlocked(w.ck, eps);
    var w' := Next(w, MStart);
    forall t, l | t in w'.ck.actv && l in Of(w'.writes, t) ensures Wrote(ActsOf(w'.ck, l.table, t)) {
      assert t in w.ck.actv;
    }
  }

  lemma ActX(w: World, eps: seq<Episode>, t: Id, table: string, a: Action, o: Oracle)
    requires XInv(w, eps) && Visits(w.ck, MAct(t, table, a, o))
    ensures XInv(After(w, DoAct(w.ck, t, table, a, o, true), t, table, a), eps)
  {
    ActInv(w, t, table, a, o);
    DoActGuarded(w.ck, t, table, a, o);
    GuardedBlocked(w.ck, DoAct(w.ck, t, table, a, o, true), eps);
    ActTraced(w, t, table, a, o);
  }

  lemma CommitX(w: World, eps: seq<Episode>, t: Id)
    requires XInv(w, eps) && t in w.ck.actv
    ensures XInv(Logged(w, Commit(w.ck, t, true), t), eps)
  {
    CommitInv(w, t);
    CommitGuarded(w.ck, t);
    GuardedBlocked(w.ck, Commit(w.ck, t, true), eps);
    CommitGrows(w.ck, t);
    GrowsTraced(w, Logged(w, Commit(w.ck, t, true), t));
    CommitOutside(w, eps, t);
  }

  lemma AbortX(w: World, eps: seq<Episode>, t: Id)
    requires XInv(w, eps)
    ensures XInv(w.(ck := Abort(w.ck, t, true)), eps)
  {
    AbortInv(w, t);
    AbortGuarded(w.ck, t);
    GuardedBlocked(w.ck, Abort(w.ck, t, true), eps);
    AbortShrinks(w.ck, t, true);
    ShrunkGrows(w.ck, Abort(w.ck, t, true));
    GrowsTraced(w, w.(ck := Abort(w.ck, t, true)));
  }

  lemma AddGrows(s: State, table: string, order: seq<Id>)
    requires Struct(s)
    ensures Grows(s, AddExclusive(s, table, order, true))
  {
    AbortWritersShrinks(s, table, order, true);
    ShrunkGrows(s, AbortWriters(s, table, order, true));
  }

  lemma AddX(w: World, eps: seq<Episode>, table: string, order: seq<Id>)
    requires XInv(w, eps) && (forall u | (table, u) in w.ck.acts :: u in order) && !Exclusive(w.ck, table)
    ensures XInv(w.(ck := AddExclusive(w.ck, table, order, true)), eps + [Episode(table, w.ck.seqno, Never)])
  {
    AddExclusiveInv(w, table, order);
    AddBlocked(w.ck, eps, table, order);
    AddGrows(w.ck, table, order);
    GrowsTraced(w, w.(ck := AddExclusive(w.ck, table, order, true)));
  }

  lemma EndX(w: World, eps: seq<Episode>, table: string, s': State, eps': seq<Episode>)
    requires XInv(w, eps) && Exclusive(w.ck, table)
    requires s' == EndExclusive(w.ck, table, true) && eps' == Closed(eps, table, w.ck.seqno + 2)
    ensures XInv(w.(ck := s'), eps')
  {
    EndExclusiveInv(w, table);
    EndBlocked(w.ck, eps, table, s', eps');
    EndGrows(w.ck, table);
    ClosedOutside(w.log, eps, table, w.ck.seqno + 2);
    Together(w, s', eps');
  }

  lemma Together(w: World, s': State, eps: seq<Episode>)
    requires Traced(w) && Grows(w.ck, s')
    requires Inv(w.(ck := s')) && Blocked(s', eps) && Outside(w.log, eps)
    ensures XInv(w.(ck := s'), eps)
  {
    GrowsTraced(w, w.(ck := s'));
  }

  lemma TickX(w: World, eps: seq<Episode>, order: seq<Id>)
    requires XInv(w, eps)
    ensures XInv(w.(ck := Tick(w.ck, order, true)), eps)
  {
    TickInv(w, order);
    TickGuarded(w.ck, order);
    GuardedBlocked(w.ck, Tick(w.ck, order, true), eps);
    TickGrows(w.ck, order);
    Together(w, Tick(w.ck, order, true), eps);
  }

  lemma NextX(w: World, eps: seq<Episode>, m: Msg)
    requires XInv(w, eps) && Visits(w.ck, m)
    ensures XInv(Next(w, m), NextEpisodes(w.ck, eps, m))
  {
    match m
    case MStart => StartX(w, eps);
    case MAct(t, table, a, o) => ActX(w, eps, t, table, a, o);
    case MCommit(t) => if t in w.ck.actv { CommitX(w, eps, t); }
    case MAbort(t) => AbortX(w, eps, t);
    case MTick(order) => TickX(w, eps, order);
    case _ => ExclusiveX(w, eps, m);
  }

  lemma ExclusiveX(w: World, eps: seq<Episode>, m: Msg)
    requires XInv(w, eps) && Visits(w.ck, m) && (m.MAddExclusive? || m.MEndExclusive?)
    ensures XInv(Next(w, m), NextEpisodes(w.ck, eps, m))
  {
    if m.MAddExclusive? {
      assert Next(w, m) == w.(ck := AddExclusive(w.ck, m.table, m.order, true));
      if !Exclusive(w.ck, m.table) { AddX(w, eps, m.table, m.order); }
    } else {
      assert Next(w, m) == w.(ck := EndExclusive(w.ck, m.table, true));
      if Exclusive(w.ck, m.table) { EndX(w, eps, m.table, Next(w, m).ck, NextEpisodes(w.ck, eps, m)); }
    }
  }

  /** Main theorem: in every run, a transaction that committed a write to a table either ended
      before the exclusive access to that table began or started after it ended. */
  lemma {:induction false} WritesOutsideExclusives(msgs: seq<Msg>)
    requires ValidRun(msgs)
    ensures XInv(Run(msgs), Episodes(msgs))
    ensures forall d, e, l | d in Run(msgs).log && e in Episodes(msgs) && l in d.writes && l.table == e.table ::
      d.end <= e.from || (e.to.At? && e.to.n < d.id)
  {
    if msgs == [] {
    } else {
      var n := |msgs| - 1;
      ValidPrefix(msgs, n);
      WritesOutsideExclusives(msgs[..n]);
      assert Visits(Run(msgs[..n]).ck, msgs[n]);
      NextX(Run(msgs[..n]), Episodes(msgs[..n]), msgs[n]);
    }
  }
}
