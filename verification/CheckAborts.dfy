/** Who gets aborted: other people's actions abort a transaction only after it has attempted
    an update, and a transaction that survives its own action has no conflict left with an
    active updating one.
 */
module CheckAborts {
  import opened CheckModel
  import opened CheckInvariant

  /** Transactions other than `t` without updates stay, at most marked with a conflict. */
  ghost predicate Spared(s: State, s': State, t: Id) {
    forall k | k in s.actv && k != t && !s.actv[k].hasUpdates ::
      k in s'.actv && s'.actv[k] == s.actv[k].(readConflict := s'.actv[k].readConflict)
  }

  lemma SparedTrans(a: State, b: State, c: State, t: Id)
    requires Spared(a, b, t) && Spared(b, c, t)
    ensures Spared(a, c, t)
  {
  }

  lemma AbortSpares(s: State, s': State, id: Id, t: Id)
    requires Struct(s) && s' == Abort(s, id, true)
    requires id == t || (id in s.actv ==> s.actv[id].hasUpdates)
    ensures Struct(s') && Spared(s, s', t)
  {
    AbortShrinks(s, id, true);
  }

  lemma Abort1OfSpares(s: State, s': State, t: Id, u: Id, act1: string, act2: string, table: string, head: bool)
    requires Struct(s) && t in s.actv && Known(s, u)
    requires s' == Abort1Of(s, t, u, act1, act2, table, head, true)
    ensures Spared(s, s', t)
  {
    if !s.actv[t].hasUpdates || !TranOf(s, u).hasUpdates {
    } else if TranOf(s, u).end.At? || head {
      AbortSpares(s, s', t, t);
    } else {
      AbortSpares(s, s', u, t);
    }
  }

  lemma VisitSpares(s: State, s': State, t: Id, table: string, a: Action, u: Id, head: bool)
    requires Struct(s) && t in s.actv && s' == Visit(s, t, table, a, u, head, true)
    ensures Struct(s') && Spared(s, s', t)
  {
    VisitShrinks(s, t, table, a, u, head, true);
    if Conflict(s, t, table, a, u) {
      Abort1OfSpares(s, s', t, u, ActName(a, ActsOf(s, table, u)), OtherName(a), table, head);
    }
  }

  lemma {:induction false} CheckAllSpares(s: State, s': State, t: Id, table: string, a: Action, order: seq<Id>, heads: set<Id>)
    requires Struct(s) && s' == CheckAll(s, t, table, a, order, heads, true)
    ensures Struct(s') && Spared(s, s', t)
    decreases order
  {
    if order != [] && t in s.actv {
      var s1 := Visit(s, t, table, a, order[0], order[0] in heads, true);
      VisitSpares(s, s1, t, table, a, order[0], order[0] in heads);
      CheckAllSpares(s1, s', t, table, a, order[1..], heads);
      SparedTrans(s, s1, s', t);
    }
  }

  lemma SaveSpares(s: State, s': State, t: Id, table: string, a: Action, o: Oracle)
    requires Struct(s) && t in s.actv && s' == Save(s, t, table, a, o, true)
    ensures Spared(s, s', t)
  {
    if a.Read? {
      var n := s.actv[t].readCount + o.inc;
      SaveReadIs(s, t, table, a, o, n, true);
      if n >= READ_MAX {
        CountedKeeps(s, t, table, n);
        AbortSpares(Counted(s, t, table, n), s', t, t);
      }
    } else if !o.room {
      AbortSpares(s, s', t, t);
    }
  }

  lemma CheckedSpares(s: State, s': State, t: Id, table: string, a: Action, o: Oracle)
    requires Struct(s) && s' == Checked(s, t, table, a, o, true)
    ensures Spared(s, s', t)
  {
    var s1 := CheckAll(s, t, table, a, o.order, o.heads, true);
    CheckAllSpares(s, s1, t, table, a, o.order, o.heads);
    if t in s1.actv {
      SaveSpares(s1, s', t, table, a, o);
      SparedTrans(s, s1, s', t);
    }
  }

  /** An action of `t` aborts no other transaction that has not attempted an update. */
  lemma ActSparesReaders(s: State, s': State, t: Id, table: string, a: Action, o: Oracle)
    requires Struct(s) && s' == DoAct(s, t, table, a, o, true)
    ensures Spared(s, s', t)
  {
    if t !in s.actv {
    } else if a.Read? {
      if s.actv[t].readConflict == "" { CheckedSpares(s, s', t, table, a, o); }
    } else if s.actv[t].readConflict != "" && !s.actv[t].hasUpdates {
      AbortSpares(s, s', t, t);
    } else {
      MarkUpdatesKeeps(s, t);
      if Excluded(s, t, table) {
        AbortSpares(MarkUpdates(s, t), s', t, t);
      } else {
        CheckedSpares(MarkUpdates(s, t), s', t, table, a, o);
      }
    }
  }

  lemma {:induction false} AbortWritersSpares(s: State, s': State, table: string, order: seq<Id>, t: Id)
    requires Struct(s) && t !in s.actv && s' == AbortWriters(s, table, order, true)
    ensures Struct(s') && Spared(s, s', t)
    decreases order
  {
    if order != [] {
      var v := order[0];
      var s1 := if Wrote(ActsOf(s, table, v)) then Abort(s, v, true) else s;
      AbortShrinks(s, v, true);
      assert Struct(s1) && Spared(s, s1, t) && t !in s1.actv;
      AbortWritersSpares(s1, s', table, order[1..], t);
      SparedTrans(s, s1, s', t);
    }
  }

  /** Neither does AddExclusive. */
  lemma ExclusiveSparesReaders(s: State, s': State, table: string, order: seq<Id>)
    requires Struct(s) && s' == AddExclusive(s, table, order, true)
    ensures forall k | k in s.actv && !s.actv[k].hasUpdates :: k in s'.actv && s'.actv[k] == s.actv[k].(readConflict := s'.actv[k].readConflict)
  {
    if !Exclusive(s, table) {
      var t := s.seqno + 1;
      assert t !in s.actv;
      AbortWritersSpares(s, AbortWriters(s, table, order, true), table, order, t);
    }
  }

  /** When the loop is over and `t` has survived with updates, every transaction that conflicts
      with its action is gone, or has no updates and has been marked so that it can never have any. */
  lemma SurvivorHasNoRivals(s: State, s1: State, t: Id, table: string, a: Action, o: Oracle, u: Id)
    requires Struct(s) && (forall v | (table, v) in s.acts :: v in o.order)
    requires t in s.actv && s.actv[t].hasUpdates
    requires s1 == CheckAll(s, t, table, a, o.order, o.heads, true) && t in s1.actv
    ensures Conflict(s1, t, table, a, u) ==> a.Write? && u in s1.actv && !s1.actv[u].hasUpdates && s1.actv[u].readConflict != ""
  {
    CheckAllShrinks(s, t, table, a, o.order, o.heads, true);
    CheckAllSettles(s, t, table, a, o.order, o.heads, true);
    if u in o.order {
      assert Settled(s1, t, table, a, u);
    } else {
      assert ActsOf(s1, table, u) == NO_ACTS;
    }
  }
}
