/** Forgetting ended transactions and exclusives is invisible: a checker that keeps them for
    ever takes the same decision on every message of every run.
 */
module CheckPrune {
  import opened CheckModel
  import opened CheckInvariant

  /** The state after a run, of the checker (`prune`) or of one that forgets nothing. */
  ghost function RunChecker(msgs: seq<Msg>, prune: bool): State {
    if msgs == [] then INITIAL
    else Step(RunChecker(msgs[..|msgs| - 1], prune), msgs[|msgs| - 1], prune)
  }

  /** `p` differs from `u` only by having forgotten entries that nobody can overlap any more. */
  ghost predicate Forgot(u: State, p: State) {
    && u.actv == p.actv && u.seqno == p.seqno && u.oldest == p.oldest && u.clock == p.clock
    && (forall k | k in p.cmtd :: k in u.cmtd && p.cmtd[k] == u.cmtd[k])
    && (forall q | q in p.acts :: q in u.acts && p.acts[q] == u.acts[q])
    && (forall q | q in u.acts && Known(p, q.1) :: q in p.acts)
    && (forall x | x in p.excl :: x in u.excl && p.excl[x] == u.excl[x])
    && (forall k, j | k in u.cmtd && k !in p.cmtd && j in u.actv :: Before(u.cmtd[k].end, At(j)))
    && (forall x | x in u.excl && x !in p.excl :: u.excl[x].At?)
    && (forall x, j | x in u.excl && x !in p.excl && j in u.actv :: Before(u.excl[x], At(j)))
  }

  ghost predicate Alike(u: State, p: State) {
    Struct(u) && Struct(p) && Forgot(u, p)
  }

  lemma CleanForgot(u: State, p: State, p': State)
    requires Struct(p) && Forgot(u, p) && p' == CleanEnded(p, true)
    ensures Forgot(CleanEnded(u, false), p')
  {
    var u' := CleanEnded(u, false);
    assert u' == u.(oldest := p'.oldest);
    CleanForgets(u, p, p');
    forall q | q in u'.acts && Known(p', q.1) ensures q in p'.acts { assert Known(p, q.1); }
  }

  /** What the clean-up forgets ended before every active transaction started. */
  lemma CleanForgets(u: State, p: State, p': State)
    requires Struct(p) && Forgot(u, p) && p' == CleanEnded(p, true)
    ensures forall k, j | k in u.cmtd && k !in p'.cmtd && j in u.actv :: Before(u.cmtd[k].end, At(j))
    ensures forall x | x in u.excl && x !in p'.excl :: u.excl[x].At?
    ensures forall x, j | x in u.excl && x !in p'.excl && j in u.actv :: Before(u.excl[x], At(j))
  {
    var o := p'.oldest;
    assert forall j | j in p.actv :: o.At? && o.n <= j;
    forall k, j | k in u.cmtd && k !in p'.cmtd && j in u.actv ensures Before(u.cmtd[k].end, At(j)) {
      if k in p.cmtd { assert Before(p.cmtd[k].end, o); }
    }
    forall x, j | x in u.excl && x !in p'.excl && j in u.actv ensures Before(u.excl[x], At(j)) {
      if x in p.excl { assert Before(p.excl[x], o); }
    }
  }

  lemma CleanAlike(u: State, p: State)
    requires Alike(u, p)
    ensures Alike(CleanEnded(u, false), CleanEnded(p, true))
  {
    CleanEndedStruct(u, CleanEnded(u, false), false);
    CleanEndedStruct(p, CleanEnded(p, true), true);
    CleanForgot(u, p, CleanEnded(p, true));
  }

  ghost function Dropped(s: State, id: Id, o: Time): State {
    RemoveByTable(s, id).(actv := s.actv - {id}, oldest := o)
  }

  lemma DropForgot(u: State, p: State, id: Id, o: Time)
    requires Forgot(u, p) && id !in p.cmtd
    ensures Forgot(Dropped(u, id, o), Dropped(p, id, o))
  {
  }

  lemma DropAlike(u: State, p: State, id: Id, o: Time)
    requires Alike(u, p) && id in u.actv
    requires o.Never? || (o == u.oldest && u.oldest != At(id))
    ensures Alike(Dropped(u, id, o), Dropped(p, id, o))
  {
    DropShrinks(u, id, Dropped(u, id, o));
    DropShrinks(p, id, Dropped(p, id, o));
    DropForgot(u, p, id, o);
  }

  lemma AbortAlike(u: State, p: State, id: Id)
    requires Alike(u, p)
    ensures Alike(Abort(u, id, false), Abort(p, id, true))
  {
    if id !in u.actv {
    } else if u.oldest == At(id) || u.oldest.Never? {
      DropAlike(u, p, id, Never);
      CleanAlike(Dropped(u, id, Never), Dropped(p, id, Never));
    } else {
      DropAlike(u, p, id, u.oldest);
    }
  }

  lemma SameActs(u: State, p: State, table: string, k: Id)
    requires Alike(u, p) && Known(p, k)
    ensures Known(u, k) && TranOf(u, k) == TranOf(p, k) && ActsOf(u, table, k) == ActsOf(p, table, k)
  {
    if (table, k) in u.acts { assert (table, k).1 == k; assert (table, k) in p.acts; }
  }

  /** A forgotten transaction cannot conflict. */
  lemma SameConflict(u: State, p: State, t: Id, table: string, a: Action, v: Id)
    requires Alike(u, p) && t in u.actv
    ensures Conflict(u, t, table, a, v) <==> Conflict(p, t, table, a, v)
    ensures Conflict(u, t, table, a, v) ==> Known(p, v)
  {
    if Known(p, v) {
      SameActs(u, p, table, v);
    } else if v in u.cmtd {
      assert Before(u.cmtd[v].end, At(t));
    }
  }

  /** One active transaction replaced by the same value on both sides. */
  lemma PutTranForgot(u: State, p: State, id: Id, t: Tran)
    requires Forgot(u, p) && id in u.actv
    ensures Forgot(u.(actv := u.actv[id := t]), p.(actv := p.actv[id := t]))
  {
  }

  lemma PutTranKeeps(s: State, id: Id, t: Tran)
    requires Struct(s) && id in s.actv && t.end.Never?
    requires (t.hasUpdates ==> t.readConflict == "") && (s.actv[id].hasUpdates ==> t.hasUpdates)
    ensures Struct(s.(actv := s.actv[id := t]))
  {
  }

  lemma PutTranAlike(u: State, p: State, id: Id, t: Tran)
    requires Alike(u, p) && id in u.actv && t.end.Never?
    requires (t.hasUpdates ==> t.readConflict == "") && (u.actv[id].hasUpdates ==> t.hasUpdates)
    ensures Alike(u.(actv := u.actv[id := t]), p.(actv := p.actv[id := t]))
  {
    PutTranKeeps(u, id, t);
    PutTranKeeps(p, id, t);
    PutTranForgot(u, p, id, t);
  }

  lemma SetConflictAlike(u: State, p: State, id: Id, why: string)
    requires Alike(u, p) && id in u.actv && !u.actv[id].hasUpdates
    ensures Alike(SetConflict(u, id, why), SetConflict(p, id, why))
  {
    PutTranAlike(u, p, id, u.actv[id].(readConflict := why));
  }

  lemma Abort1OfAlike(u: State, p: State, t1: Id, t2: Id, act1: string, act2: string, table: string, head: bool)
    requires Alike(u, p) && t1 in u.actv && Known(p, t2)
    ensures Known(u, t2)
    ensures Alike(Abort1Of(u, t1, t2, act1, act2, table, head, false), Abort1Of(p, t1, t2, act1, act2, table, head, true))
  {
    SameActs(u, p, table, t2);
    if !u.actv[t1].hasUpdates {
      SetConflictAlike(u, p, t1, Message(act1, act2, table));
    } else if !TranOf(u, t2).hasUpdates {
      if t2 in u.actv { SetConflictAlike(u, p, t2, Message(act2, act1, table)); }
    } else if TranOf(u, t2).end.At? || head {
      AbortAlike(u, p, t1);
    } else {
      AbortAlike(u, p, t2);
    }
  }

  lemma VisitAlike(u: State, p: State, t: Id, table: string, a: Action, v: Id, head: bool)
    requires Alike(u, p) && t in u.actv
    ensures Alike(Visit(u, t, table, a, v, head, false), Visit(p, t, table, a, v, head, true))
  {
    SameConflict(u, p, t, table, a, v);
    if Conflict(u, t, table, a, v) {
      SameActs(u, p, table, v);
      Abort1OfAlike(u, p, t, v, ActName(a, ActsOf(u, table, v)), OtherName(a), table, head);
    }
  }

  lemma {:induction false} CheckAllAlike(u: State, p: State, t: Id, table: string, a: Action, order: seq<Id>, heads: set<Id>)
    requires Alike(u, p)
    ensures Alike(CheckAll(u, t, table, a, order, heads, false), CheckAll(p, t, table, a, order, heads, true))
    decreases order
  {
    if order != [] && t in u.actv {
      var v := order[0];
      VisitAlike(u, p, t, table, a, v, v in heads);
      CheckAllAlike(Visit(u, t, table, a, v, v in heads, false), Visit(p, t, table, a, v, v in heads, true),
                    t, table, a, order[1..], heads);
    }
  }

  lemma PutActsForgot(u: State, p: State, t: Id, table: string, acts: Acts)
    requires Forgot(u, p) && t in u.actv
    ensures Forgot(PutActs(u, t, table, acts), PutActs(p, t, table, acts))
  {
  }

  lemma PutActsAlike(u: State, p: State, t: Id, table: string, acts: Acts)
    requires Alike(u, p) && t in u.actv && (Wrote(acts) ==> u.actv[t].hasUpdates)
    ensures Alike(PutActs(u, t, table, acts), PutActs(p, t, table, acts))
  {
    PutActsKeeps(u, t, table, acts);
    PutActsKeeps(p, t, table, acts);
    PutActsForgot(u, p, t, table, acts);
  }

  lemma CountedAlike(u: State, p: State, t: Id, table: string, n: int)
    requires Alike(u, p) && t in u.actv
    ensures Alike(Counted(u, t, table, n), Counted(p, t, table, n))
  {
    SameActs(u, p, table, t);
    PutActsAlike(u, p, t, table, ActsOf(u, table, t));
    PutTranAlike(PutActs(u, t, table, ActsOf(u, table, t)), PutActs(p, t, table, ActsOf(p, table, t)),
                 t, u.actv[t].(readCount := n));
  }

  lemma SaveScanAlike(u: State, p: State, t: Id, table: string, n: int, a: Action)
    requires Alike(u, p) && t in u.actv && a.Read?
    ensures Alike(PutActs(Counted(u, t, table, n), t, table, AddScan(ActsOf(u, table, t), a.ix, a.from, a.to)),
                  PutActs(Counted(p, t, table, n), t, table, AddScan(ActsOf(u, table, t), a.ix, a.from, a.to)))
  {
    var acts := AddScan(ActsOf(u, table, t), a.ix, a.from, a.to);
    assert Wrote(acts) ==> Wrote(ActsOf(u, table, t));
    assert Wrote(acts) ==> u.actv[t].hasUpdates;
    CountedAlike(u, p, t, table, n);
    PutActsAlike(Counted(u, t, table, n), Counted(p, t, table, n), t, table, acts);
  }

  lemma SaveReadAlike(u: State, p: State, t: Id, table: string, a: Action, o: Oracle)
    requires Alike(u, p) && t in u.actv && a.Read?
    ensures Alike(Save(u, t, table, a, o, false), Save(p, t, table, a, o, true))
  {
    var n := u.actv[t].readCount + o.inc;
    SaveReadIs(u, t, table, a, o, n, false);
    SaveReadIs(p, t, table, a, o, n, true);
    if n >= READ_MAX {
      CountedAlike(u, p, t, table, n);
      AbortAlike(Counted(u, t, table, n), Counted(p, t, table, n), t);
    } else {
      SameActs(u, p, table, t);
      SaveScanAlike(u, p, t, table, n, a);
    }
  }

  lemma SaveAlike(u: State, p: State, t: Id, table: string, a: Action, o: Oracle)
    requires Alike(u, p) && t in u.actv && (a.Write? ==> u.actv[t].hasUpdates)
    ensures Alike(Save(u, t, table, a, o, false), Save(p, t, table, a, o, true))
  {
    SameActs(u, p, table, t);
    if a.Read? {
      SaveReadAlike(u, p, t, table, a, o);
    } else if !o.room {
      AbortAlike(u, p, t);
    } else {
      PutActsAlike(u, p, t, table, AddKeys(ActsOf(u, table, t), a.deletes, a.outputs));
    }
  }

  lemma CheckedAlike(u: State, p: State, t: Id, table: string, a: Action, o: Oracle)
    requires Alike(u, p) && (a.Write? && t in u.actv ==> u.actv[t].hasUpdates)
    ensures Alike(Checked(u, t, table, a, o, false), Checked(p, t, table, a, o, true))
  {
    CheckAllAlike(u, p, t, table, a, o.order, o.heads);
    var u1 := CheckAll(u, t, table, a, o.order, o.heads, false);
    CheckAllShrinks(u, t, table, a, o.order, o.heads, false);
    if t in u1.actv {
      SaveAlike(u1, CheckAll(p, t, table, a, o.order, o.heads, true), t, table, a, o);
    }
  }

  lemma MarkAlike(u: State, p: State, t: Id)
    requires Alike(u, p) && t in u.actv && u.actv[t].readConflict == ""
    ensures Alike(MarkUpdates(u, t), MarkUpdates(p, t))
  {
    PutTranAlike(u, p, t, u.actv[t].(hasUpdates := true));
  }

  lemma SameExcluded(u: State, p: State, t: Id, table: string)
    requires Alike(u, p) && t in u.actv
    ensures Excluded(u, t, table) <==> Excluded(p, t, table)
  {
    if table in u.excl && table !in p.excl { assert Before(u.excl[table], At(t)); }
  }

  lemma DoActAlike(u: State, p: State, t: Id, table: string, a: Action, o: Oracle)
    requires Alike(u, p)
    ensures Alike(DoAct(u, t, table, a, o, false), DoAct(p, t, table, a, o, true))
  {
    if t !in u.actv {
    } else if a.Read? {
      CheckedAlike(u, p, t, table, a, o);
    } else if u.actv[t].readConflict != "" && !u.actv[t].hasUpdates {
      AbortAlike(u, p, t);
    } else {
      DoWriteAlike(u, p, t, table, a, o);
    }
  }

  lemma DoWriteAlike(u: State, p: State, t: Id, table: string, a: Action, o: Oracle)
    requires Alike(u, p) && t in u.actv && u.actv[t].readConflict == ""
    ensures Alike(DoWrite(u, t, table, a, o, false), DoWrite(p, t, table, a, o, true))
  {
    SameExcluded(u, p, t, table);
    MarkAlike(u, p, t);
    if Excluded(u, t, table) {
      AbortAlike(MarkUpdates(u, t), MarkUpdates(p, t), t);
    } else {
      CheckedAlike(MarkUpdates(u, t), MarkUpdates(p, t), t, table, a, o);
    }
  }

  lemma CommittedAlike(u: State, p: State, id: Id)
    requires Alike(u, p) && id in u.actv
    ensures Alike(Committed(u, id), Committed(p, id))
  {
    CommittedKeeps(u, id);
    CommittedKeeps(p, id);
    CommittedForgot(u, p, id);
  }

  lemma CommittedForgot(u: State, p: State, id: Id)
    requires Forgot(u, p) && id in u.actv && id !in u.cmtd
    ensures Forgot(Committed(u, id), Committed(p, id))
  {
    if u.actv[id].hasUpdates {
      WriterForgot(u, p, id, Committed(u, id), Committed(p, id));
    } else {
      ReaderForgot(u, p, id, Committed(u, id), Committed(p, id));
    }
  }

  lemma WriterForgot(u: State, p: State, id: Id, u': State, p': State)
    requires Forgot(u, p) && id in u.actv && id !in u.cmtd && u.actv[id].hasUpdates
    requires u' == Committed(u, id) && p' == Committed(p, id)
    ensures Forgot(u', p')
  {
    assert p'.cmtd.Keys == p.cmtd.Keys + {id} && u'.cmtd.Keys == u.cmtd.Keys + {id};
    assert forall k :: Known(p', k) <==> Known(p, k);
    assert p'.acts.Keys == p.acts.Keys && u'.acts.Keys == u.acts.Keys;
  }

  lemma ReaderForgot(u: State, p: State, id: Id, u': State, p': State)
    requires Forgot(u, p) && id in u.actv && id !in u.cmtd && !u.actv[id].hasUpdates
    requires u' == Committed(u, id) && p' == Committed(p, id)
    ensures Forgot(u', p')
  {
    assert u'.cmtd == u.cmtd && p'.cmtd == p.cmtd;
  }

  lemma CommitAlike(u: State, p: State, id: Id)
    requires Alike(u, p)
    ensures Alike(Commit(u, id, false), Commit(p, id, true))
  {
    if id in u.actv {
      CommittedAlike(u, p, id);
      CleanAlike(Committed(u, id), Committed(p, id));
    }
  }

  lemma {:induction false} AbortWritersAlike(u: State, p: State, table: string, order: seq<Id>)
    requires Alike(u, p)
    ensures Alike(AbortWriters(u, table, order, false), AbortWriters(p, table, order, true))
    decreases order
  {
    if order != [] {
      var v := order[0];
      AbortAlike(u, p, v);
      if v in u.actv { SameActs(u, p, table, v); }
      var u1 := if Wrote(ActsOf(u, table, v)) then Abort(u, v, false) else u;
      var p1 := if Wrote(ActsOf(p, table, v)) then Abort(p, v, true) else p;
      AbortWritersAlike(u1, p1, table, order[1..]);
    }
  }

  lemma PutExclAlike(u: State, p: State, u': State, p': State, table: string, e: Time)
    requires Alike(u, p)
    requires u' == u.(excl := u.excl[table := e], seqno := u'.seqno)
    requires p' == p.(excl := p.excl[table := e], seqno := u'.seqno)
    requires u.seqno <= u'.seqno && (e.At? ==> e.n <= u'.seqno)
    ensures Alike(u', p')
  {
    PutExclKeeps(u, u', table, e);
    PutExclKeeps(p, p', table, e);
    PutExclForgot(u, p, u', p', table, e);
  }

  lemma PutExclKeeps(s: State, s': State, table: string, e: Time)
    requires Struct(s) && s' == s.(excl := s.excl[table := e], seqno := s'.seqno)
    requires s.seqno <= s'.seqno && (e.At? ==> e.n <= s'.seqno)
    ensures Struct(s')
  {
  }

  lemma PutExclForgot(u: State, p: State, u': State, p': State, table: string, e: Time)
    requires Forgot(u, p)
    requires u' == u.(excl := u.excl[table := e], seqno := u'.seqno)
    requires p' == p.(excl := p.excl[table := e], seqno := u'.seqno)
    ensures Forgot(u', p')
  {
  }

  lemma AddExclusiveAlike(u: State, p: State, table: string, order: seq<Id>)
    requires Alike(u, p)
    ensures Alike(AddExclusive(u, table, order, false), AddExclusive(p, table, order, true))
  {
    if !Exclusive(u, table) {
      AbortWritersAlike(u, p, table, order);
      PutExclAlike(AbortWriters(u, table, order, false), AbortWriters(p, table, order, true),
                   AddExclusive(u, table, order, false), AddExclusive(p, table, order, true), table, Never);
    }
  }

  lemma EndExclusiveAlike(u: State, p: State, table: string)
    requires Alike(u, p)
    ensures Alike(EndExclusive(u, table, false), EndExclusive(p, table, true))
  {
    if Exclusive(u, table) {
      PutExclAlike(u, p, Released(u, table), Released(p, table), table, At(u.seqno + 2));
      CleanAlike(Released(u, table), Released(p, table));
    }
  }

  lemma {:induction false} AbortAgedAlike(u: State, p: State, order: seq<Id>)
    requires Alike(u, p)
    ensures Alike(AbortAged(u, order, false), AbortAged(p, order, true))
    decreases order
  {
    if order != [] {
      var t := order[0];
      AbortAlike(u, p, t);
      if t in u.actv && u.clock - u.actv[t].birth >= MAX_AGE {
        AbortAgedAlike(Abort(u, t, false), Abort(p, t, true), order[1..]);
      } else {
        AbortAgedAlike(u, p, order[1..]);
      }
    }
  }

  lemma StartAlike(u: State, p: State)
    requires Alike(u, p)
    ensures Alike(StartTran(u), StartTran(p))
  {
    StepKeeps(u, MStart, false);
    StepKeeps(p, MStart, true);
    StartForgot(u, p);
  }

  lemma StartForgot(u: State, p: State)
    requires Forgot(u, p)
    requires forall k | k in u.cmtd :: u.cmtd[k].end.At? && u.cmtd[k].end.n <= u.seqno
    requires forall x | x in u.excl && u.excl[x].At? :: u.excl[x].n <= u.seqno
    requires forall q | q in u.acts :: q.1 <= u.seqno
    ensures Forgot(StartTran(u), StartTran(p))
  {
  }

  lemma TickAlike(u: State, p: State, order: seq<Id>)
    requires Alike(u, p)
    ensures Alike(Tick(u, order, false), Tick(p, order, true))
  {
    var u1, p1 := u.(clock := u.clock + 1), p.(clock := p.clock + 1);
    ClockAlike(u, p, u.clock + 1);
    assert p1 == p.(clock := u.clock + 1);
    AbortAgedAlike(u1, p1, order);
    assert Tick(u, order, false) == AbortAged(u1, order, false) && Tick(p, order, true) == AbortAged(p1, order, true);
  }

  lemma ClockAlike(u: State, p: State, n: int)
    requires Alike(u, p)
    ensures Alike(u.(clock := n), p.(clock := n))
  {
    ClockKeeps(u, n);
    ClockKeeps(p, n);
  }

  lemma StepAlike(u: State, p: State, m: Msg)
    requires Alike(u, p)
    ensures Alike(Step(u, m, false), Step(p, m, true))
  {
    match m
    case MStart => StartAlike(u, p);
    case MAct(t, table, a, o) => DoActAlike(u, p, t, table, a, o);
    case MCommit(t) => CommitAlike(u, p, t);
    case MAbort(t) => AbortAlike(u, p, t);
    case MAddExclusive(table, order) => AddExclusiveAlike(u, p, table, order);
    case MEndExclusive(table) => EndExclusiveAlike(u, p, table);
    case MTick(order) => TickAlike(u, p, order);
  }

  /** Main theorem: after every run the active transactions, with everything the checker knows
      about them, are the same whether or not the checker forgets what has ended. */
  lemma {:induction false} PruningIsInvisible(msgs: seq<Msg>)
    ensures RunChecker(msgs, false).actv == RunChecker(msgs, true).actv
    ensures Alike(RunChecker(msgs, false), RunChecker(msgs, true))
  {
    if msgs == [] {
    } else {
      var n := |msgs| - 1;
      PruningIsInvisible(msgs[..n]);
      StepAlike(RunChecker(msgs[..n], false), RunChecker(msgs[..n], true), msgs[n]);
    }
  }
}
