/** Serializability of every run of the checker.

    A `World` is the checker together with the history it does not keep: everything
    each transaction has read and written, and the list of commits in order.
 */
module CheckSerial {
  import opened CheckModel
  import opened CheckInvariant

  /** A range read on an index, and a place that a write touches. */
  datatype Scan = Scan(table: string, ix: nat, from: Key, to: Key)
  datatype Loc = Loc(table: string, ix: nat, key: Key)

  predicate Hits(r: Scan, l: Loc) {
    r.table == l.table && r.ix == l.ix && InRange(l.key, r.from, r.to)
  }

  datatype Done = Done(id: Id, end: int, updates: bool, scans: set<Scan>, writes: set<Loc>, lost: set<Loc>)

  datatype World = World(ck: State, scans: map<Id, set<Scan>>, writes: map<Id, set<Loc>>,
                         lost: map<Id, set<Loc>>, log: seq<Done>)

  const START := World(INITIAL, map[], map[], map[], [])

  function Of<T>(m: map<Id, set<T>>, id: Id): set<T> {
    if id in m then m[id] else {}
  }

  function Locs(table: string, keys: seq<Key>): set<Loc> {
    set i | 0 <= i < |keys| :: Loc(table, i, keys[i])
  }

  /** The writes of action `a` that ordset drops: an empty key put into an empty set. */
  function LostIn(w: seq<set<Key>>, table: string, keys: seq<Key>): set<Loc> {
    set i | 0 <= i < |keys| && keys[i] == "" && Nth(w, i) == {} :: Loc(table, i, "")
  }

  function Lost(acts: Acts, table: string, a: Action): set<Loc>
    requires a.Write?
  {
    LostIn(acts.deletes, table, a.deletes) + LostIn(acts.outputs, table, a.outputs)
  }

  /** The checker has moved to `s` after action `a` of `t`. */
  ghost function After(w: World, s: State, t: Id, table: string, a: Action): World {
    if t !in s.actv then w.(ck := s)
    else
      match a
      case Read(ix, from, to) => w.(ck := s, scans := w.scans[t := Of(w.scans, t) + {Scan(table, ix, from, to)}])
      case Write(_, deletes, outputs) => w.(ck := s,
        writes := w.writes[t := Of(w.writes, t) + Locs(table, deletes) + Locs(table, outputs)],
        lost := w.lost[t := Of(w.lost, t) + Lost(ActsOf(w.ck, table, t), table, a)])
  }

  /** The log entry of a transaction that commits now. */
  ghost function Finished(w: World, id: Id): Done
    requires id in w.ck.actv
  {
    Done(id, w.ck.seqno + 2, w.ck.actv[id].hasUpdates, Of(w.scans, id), Of(w.writes, id), Of(w.lost, id))
  }

  ghost function Logged(w: World, s: State, t: Id): World
    requires t in w.ck.actv
  {
    w.(ck := s, log := w.log + [Finished(w, t)])
  }

  /** One message: the checker's step, and what the transactions involved have now done. */
  ghost function Next(w: World, m: Msg): World {
    var s := Step(w.ck, m, true);
    match m
    case MAct(t, table, a, _) => After(w, s, t, table, a)
    case MCommit(t) => if t in w.ck.actv then Logged(w, s, t) else w
    case _ => w.(ck := s)
  }

  /** The world after a sequence of messages. */
  ghost function Run(msgs: seq<Msg>): World {
    if msgs == [] then START
    else Next(Run(msgs[..|msgs| - 1]), msgs[|msgs| - 1])
  }

  /** Every message of the run visits all the entries it walks over. */
  ghost predicate ValidRun(msgs: seq<Msg>) {
    forall i | 0 <= i < |msgs| :: Visits(Run(msgs[..i]).ck, msgs[i])
  }

  // ----- the invariant -------------------------------------------------------------

  ghost predicate NoClash(r: Acts, w: Acts) {
    forall ix: nat, p, k | p in Nth(r.scans, ix) && (k in Nth(w.outputs, ix) || k in Nth(w.deletes, ix)) ::
      !InRange(k, p.0, p.1)
  }

  /** No transaction that may still commit updates has read what an overlapping one has written. */
  ghost predicate Free(s: State) {
    forall t, u, table | t in s.actv && s.actv[t].readConflict == "" && u != t && Known(s, u) && Overlap(s, t, u) ::
      NoClash(ActsOf(s, table, t), ActsOf(s, table, u))
  }

  ghost predicate Scanned(s: State, t: Id, r: Scan) {
    (r.from, r.to) in Nth(ActsOf(s, r.table, t).scans, r.ix)
  }

  ghost predicate Recorded(s: State, t: Id, l: Loc) {
    var a := ActsOf(s, l.table, t);
    l.key in Nth(a.outputs, l.ix) || l.key in Nth(a.deletes, l.ix)
  }

  /** The checker's records agree with the history, except for the lost writes. */
  ghost predicate Tracked(w: World) {
    && (forall t, r | t in w.ck.actv && w.ck.actv[t].readConflict == "" && r in Of(w.scans, t) :: Scanned(w.ck, t, r))
    && (forall t, l | Known(w.ck, t) && l in Of(w.writes, t) && l !in Of(w.lost, t) :: Recorded(w.ck, t, l))
    && (forall t | t in w.scans :: t <= w.ck.seqno)
    && (forall t | t in w.writes || t in w.lost :: t <= w.ck.seqno)
  }

  ghost predicate RememberedBy(w: World, d: Done) {
    && d.id in w.ck.cmtd && w.ck.cmtd[d.id].end == At(d.end) && Of(w.writes, d.id) == d.writes && Of(w.lost, d.id) == d.lost
  }

  /** Committed updates that an active transaction overlaps have not been forgotten. */
  ghost predicate Remembered(w: World) {
    && (forall d | d in w.log :: d.id < d.end <= w.ck.seqno && d.id !in w.ck.actv)
    && (forall d, t | d in w.log && d.updates && t in w.ck.actv && t < d.end :: RememberedBy(w, d))
  }

  ghost predicate InOrder(log: seq<Done>) {
    forall i, j | 0 <= i < j < |log| :: log[i].end < log[j].end
  }

  /** `b` committed during the lifetime of `a`. */
  predicate During(b: Done, a: Done) {
    a.id < b.end < a.end
  }

  /** The guarantee: a committed updating transaction has read nothing that was
      overwritten between its start and its end, except by a write that ordset lost. */
  ghost predicate Serial(log: seq<Done>) {
    forall a, b, r, l | a in log && b in log && a.updates && b.updates && During(b, a) &&
      r in a.scans && l in b.writes && l !in b.lost :: !Hits(r, l)
  }

  ghost predicate Inv(w: World) {
    Pruned(w.ck) && Inv1(w)
  }

  /** The part of the invariant that does not depend on pruning. */
  ghost predicate Inv1(w: World) {
    && Struct(w.ck) && Free(w.ck) && Tracked(w) && Remembered(w)
    && InOrder(w.log) && Serial(w.log)
  }

  // ----- steps that only take away ----------------------------------------------------

  /** `s'` has no more transactions than `s` and keeps the actions of those that remain. */
  ghost predicate Below(s: State, s': State) {
    && s'.seqno == s.seqno
    && (forall k | k in s'.actv :: k in s.actv && s'.actv[k].end == s.actv[k].end &&
          (s'.actv[k].readConflict == "" ==> s.actv[k].readConflict == ""))
    && (forall k | k in s'.cmtd :: k in s.cmtd && s'.cmtd[k].end == s.cmtd[k].end)
    && (forall k, table | Known(s', k) :: ActsOf(s', table, k) == ActsOf(s, table, k))
    && (forall k, j | k in s.cmtd && k !in s'.cmtd && j in s'.actv :: Before(s.cmtd[k].end, At(j)))
  }

  lemma ShrunkIsBelow(s: State, s': State)
    requires Struct(s) && Struct(s') && Shrunk(s, s')
    ensures Below(s, s')
  {
    forall k, table | Known(s', k) ensures ActsOf(s', table, k) == ActsOf(s, table, k) {
      if (table, k) in s.acts { assert (table, k).1 == k; assert (table, k) in s'.acts; }
    }
  }

  lemma BelowFree(s: State, s': State)
    requires Struct(s) && Struct(s') && Below(s, s') && Free(s)
    ensures Free(s')
  {
    forall t, u, table | t in s'.actv && s'.actv[t].readConflict == "" && u != t && Known(s', u) && Overlap(s', t, u)
      ensures NoClash(ActsOf(s', table, t), ActsOf(s', table, u))
    {
      assert Known(s, t) && Known(s, u) && Overlap(s, t, u);
      assert NoClash(ActsOf(s, table, t), ActsOf(s, table, u));
    }
  }

  lemma BelowTracked(w: World, s': State)
    requires Struct(w.ck) && Struct(s') && Below(w.ck, s') && Tracked(w)
    ensures Tracked(w.(ck := s'))
  {
    var w' := w.(ck := s');
    forall t, l | Known(s', t) && l in Of(w'.writes, t) && l !in Of(w'.lost, t) ensures Recorded(s', t, l) {
      assert Known(w.ck, t) && Recorded(w.ck, t, l);
    }
    forall t, r | t in s'.actv && s'.actv[t].readConflict == "" && r in Of(w'.scans, t) ensures Scanned(s', t, r) {
      assert Scanned(w.ck, t, r);
    }
  }

  lemma BelowRemembered(w: World, s': State)
    requires Struct(w.ck) && Struct(s') && Below(w.ck, s') && Remembered(w)
    ensures Remembered(w.(ck := s'))
  {
    var w' := w.(ck := s');
    forall d, t | d in w.log && d.updates && t in s'.actv && t < d.end ensures RememberedBy(w', d) {
      assert RememberedBy(w, d);
    }
  }

  lemma BelowInv(w: World, s': State)
    requires Inv1(w) && Struct(s') && Pruned(s') && Below(w.ck, s')
    ensures Inv(w.(ck := s'))
  {
    BelowFree(w.ck, s');
    BelowTracked(w, s');
    BelowRemembered(w, s');
  }

  lemma ShrunkInv(w: World, s': State)
    requires Inv1(w) && Struct(s') && Pruned(s') && Shrunk(w.ck, s')
    ensures Inv(w.(ck := s'))
  {
    ShrunkIsBelow(w.ck, s');
    BelowInv(w, s');
  }

  // ----- reads ------------------------------------------------------------------------

  lemma AddScanNoClash(r: Acts, w: Acts, ix: nat, from: Key, to: Key, ended: bool)
    requires NoClash(r, w) && !Clashes(Read(ix, from, to), w, ended)
    ensures NoClash(AddScan(r, ix, from, to), w)
  {
    var r' := AddScan(r, ix, from, to);
    forall i: nat, p, k | p in Nth(r'.scans, i) && (k in Nth(w.outputs, i) || k in Nth(w.deletes, i))
      ensures !InRange(k, p.0, p.1)
    {
      if i != ix || p != (from, to) { assert p in Nth(r.scans, i); }
    }
  }

  /** After the loop over all the entries of the table, `t` clashes with nobody. */
  lemma NobodyClashes(s: State, s1: State, t: Id, table: string, a: Action, o: Oracle, u: Id)
    requires Struct(s) && (forall v | (table, v) in s.acts :: v in o.order)
    requires a.Write? && t in s.actv ==> s.actv[t].hasUpdates
    requires s1 == CheckAll(s, t, table, a, o.order, o.heads, true) && t in s1.actv
    ensures Struct(s1) && Settled(s1, t, table, a, u)
  {
    CheckAllShrinks(s, t, table, a, o.order, o.heads, true);
    CheckAllSettles(s, t, table, a, o.order, o.heads, true);
    if u !in o.order {
      assert ActsOf(s1, table, u) == NO_ACTS;
    }
  }

  /** `t`'s entry for the table replaced; everything else observable unchanged. */
  ghost predicate Patched(s: State, s': State, t: Id, table: string, acts: Acts) {
    && s'.actv.Keys == s.actv.Keys && s'.cmtd == s.cmtd && s'.seqno == s.seqno
    && (forall k | k in s.actv :: s'.actv[k].end == s.actv[k].end && s'.actv[k].readConflict == s.actv[k].readConflict)
    && (forall k, tb :: ActsOf(s', tb, k) == if (tb, k) == (table, t) then acts else ActsOf(s, tb, k))
  }

  lemma PatchedReadFree(s: State, s': State, t: Id, table: string, a: Action)
    requires Struct(s) && Struct(s') && Free(s) && a.Read? && t in s.actv
    requires Patched(s, s', t, table, AddScan(ActsOf(s, table, t), a.ix, a.from, a.to))
    requires forall u :: Settled(s, t, table, a, u)
    ensures Free(s')
  {
    forall x, u, tb | x in s'.actv && s'.actv[x].readConflict == "" && u != x && Known(s', u) && Overlap(s', x, u)
      ensures NoClash(ActsOf(s', tb, x), ActsOf(s', tb, u))
    {
      ReadNoClash(s, s', t, table, a, x, u, tb);
    }
  }

  lemma ReadNoClash(s: State, s': State, t: Id, table: string, a: Action, x: Id, u: Id, tb: string)
    requires Struct(s) && Struct(s') && Free(s) && a.Read? && t in s.actv
    requires Patched(s, s', t, table, AddScan(ActsOf(s, table, t), a.ix, a.from, a.to))
    requires Settled(s, t, table, a, u)
    requires x in s'.actv && s'.actv[x].readConflict == "" && u != x && Known(s', u) && Overlap(s', x, u)
    ensures NoClash(ActsOf(s', tb, x), ActsOf(s', tb, u))
  {
    assert Known(s, u) && Overlap(s, x, u);
    assert NoClash(ActsOf(s, tb, x), ActsOf(s, tb, u));
    if x == t && tb == table {
      AddScanNoClash(ActsOf(s, tb, x), ActsOf(s, tb, u), a.ix, a.from, a.to, TranOf(s, u).end.At?);
    }
  }

  lemma PatchedReadTracked(w: World, s': State, t: Id, table: string, a: Action, w': World)
    requires Struct(w.ck) && Struct(s') && Tracked(w) && a.Read? && t in w.ck.actv
    requires Patched(w.ck, s', t, table, AddScan(ActsOf(w.ck, table, t), a.ix, a.from, a.to))
    requires t in s'.actv && w' == After(w, s', t, table, a)
    ensures Tracked(w')
  {
    forall x, r | x in s'.actv && s'.actv[x].readConflict == "" && r in Of(w'.scans, x) ensures Scanned(s', x, r) {
      if r in Of(w.scans, x) { assert Scanned(w.ck, x, r); }
    }
    forall x, l | Known(s', x) && l in Of(w'.writes, x) && l !in Of(w'.lost, x) ensures Recorded(s', x, l) {
      assert Known(w.ck, x) && Recorded(w.ck, x, l);
    }
  }

  lemma PatchedRemembered(w: World, s': State, t: Id, table: string, acts: Acts, w': World)
    requires Struct(w.ck) && Struct(s') && Remembered(w) && t in w.ck.actv
    requires Patched(w.ck, s', t, table, acts)
    requires w'.ck == s' && w'.log == w.log
    requires forall k | k != t :: Of(w'.writes, k) == Of(w.writes, k) && Of(w'.lost, k) == Of(w.lost, k)
    ensures Remembered(w')
  {
    forall d, x | d in w.log && d.updates && x in s'.actv && x < d.end ensures RememberedBy(w', d) {
      assert RememberedBy(w, d);
    }
  }

  lemma CheckAllInv(w: World, t: Id, table: string, a: Action, o: Oracle)
    requires Inv(w)
    ensures Inv(w.(ck := CheckAll(w.ck, t, table, a, o.order, o.heads, true)))
  {
    CheckAllShrinks(w.ck, t, table, a, o.order, o.heads, true);
    ShrunkInv(w, CheckAll(w.ck, t, table, a, o.order, o.heads, true));
  }

  lemma AbortInv(w: World, t: Id)
    requires Inv(w)
    ensures Inv(w.(ck := Abort(w.ck, t, true))) && t !in Abort(w.ck, t, true).actv
  {
    AbortShrinks(w.ck, t, true);
    ShrunkInv(w, Abort(w.ck, t, true));
  }

  lemma CountedInv(w: World, t: Id, table: string, n: int)
    requires Inv(w) && t in w.ck.actv
    ensures Inv(w.(ck := Counted(w.ck, t, table, n)))
  {
    CountedKeeps(w.ck, t, table, n);
    CountedIsBelow(w.ck, t, table, n);
    BelowInv(w, Counted(w.ck, t, table, n));
  }

  lemma CountedIsBelow(s: State, t: Id, table: string, n: int)
    requires t in s.actv
    ensures Below(s, Counted(s, t, table, n))
  {
  }

  lemma CountedPatched(s: State, t: Id, table: string, n: int, acts: Acts, s': State)
    requires Struct(s) && t in s.actv && s' == PutActs(Counted(s, t, table, n), t, table, acts)
    ensures Patched(s, s', t, table, acts)
  {
  }

  lemma SavedReadInv(w: World, t: Id, table: string, a: Action, n: int)
    requires Inv(w) && a.Read? && t in w.ck.actv
    requires forall u :: Settled(w.ck, t, table, a, u)
    ensures var s' := PutActs(Counted(w.ck, t, table, n), t, table, AddScan(ActsOf(w.ck, table, t), a.ix, a.from, a.to));
            Inv(After(w, s', t, table, a))
  {
    var acts := AddScan(ActsOf(w.ck, table, t), a.ix, a.from, a.to);
    var s' := PutActs(Counted(w.ck, t, table, n), t, table, acts);
    var w' := After(w, s', t, table, a);
    CountedKeeps(w.ck, t, table, n);
    PutActsKeeps(Counted(w.ck, t, table, n), t, table, acts);
    CountedPatched(w.ck, t, table, n, acts, s');
    PatchedReadFree(w.ck, s', t, table, a);
    PatchedReadTracked(w, s', t, table, a, w');
    PatchedRemembered(w, s', t, table, acts, w');
  }

  lemma OverReadInv(w: World, t: Id, table: string, n: int)
    requires Inv(w) && t in w.ck.actv
    ensures Inv(w.(ck := Abort(Counted(w.ck, t, table, n), t, true)))
    ensures t !in Abort(Counted(w.ck, t, table, n), t, true).actv
  {
    CountedInv(w, t, table, n);
    AbortInv(w.(ck := Counted(w.ck, t, table, n)), t);
  }

  lemma SaveReadInv(w: World, t: Id, table: string, a: Action, o: Oracle)
    requires Inv(w) && a.Read? && t in w.ck.actv
    requires forall u :: Settled(w.ck, t, table, a, u)
    ensures Inv(After(w, Save(w.ck, t, table, a, o, true), t, table, a))
  {
    var n := w.ck.actv[t].readCount + o.inc;
    SaveReadIs(w.ck, t, table, a, o, n, true);
    if n >= READ_MAX {
      OverReadInv(w, t, table, n);
    } else {
      SavedReadInv(w, t, table, a, n);
    }
  }

  /** A read that is not recorded, because its transaction can only commit as read-only. */
  lemma UntrackedReadInv(w: World, t: Id, table: string, a: Action)
    requires Inv(w) && a.Read? && t in w.ck.actv && w.ck.actv[t].readConflict != ""
    ensures Inv(After(w, w.ck, t, table, a))
  {
    var w' := After(w, w.ck, t, table, a);
    assert Tracked(w');
    assert forall d | RememberedBy(w, d) :: RememberedBy(w', d);
  }

  // ----- writes ------------------------------------------------------------------------

  lemma AddKeysNoClash(r: Acts, w: Acts, a: Action)
    requires a.Write? && NoClash(r, w) && !Clashes(a, r, false)
    ensures NoClash(r, AddKeys(w, a.deletes, a.outputs))
  {
    var w' := AddKeys(w, a.deletes, a.outputs);
    forall i: nat, p, k | p in Nth(r.scans, i) && (k in Nth(w'.outputs, i) || k in Nth(w'.deletes, i))
      ensures !InRange(k, p.0, p.1)
    {
      if k in Nth(w.outputs, i) || k in Nth(w.deletes, i) {
      } else if k in Nth(w'.outputs, i) {
        assert k == a.outputs[i] && !Contains(r.scans, i, a.outputs[i]);
      } else {
        assert k == a.deletes[i] && !Contains(r.scans, i, a.deletes[i]);
      }
    }
  }

  lemma PatchedWriteFree(s: State, s': State, t: Id, table: string, a: Action)
    requires Struct(s) && Struct(s') && Free(s) && a.Write? && t in s.actv
    requires Patched(s, s', t, table, AddKeys(ActsOf(s, table, t), a.deletes, a.outputs))
    requires forall u :: Settled(s, t, table, a, u)
    ensures Free(s')
  {
    forall x, u, tb | x in s'.actv && s'.actv[x].readConflict == "" && u != x && Known(s', u) && Overlap(s', x, u)
      ensures NoClash(ActsOf(s', tb, x), ActsOf(s', tb, u))
    {
      WriteNoClash(s, s', t, table, a, x, u, tb);
    }
  }

  lemma WriteNoClash(s: State, s': State, t: Id, table: string, a: Action, x: Id, u: Id, tb: string)
    requires Struct(s) && Struct(s') && Free(s) && a.Write? && t in s.actv
    requires Patched(s, s', t, table, AddKeys(ActsOf(s, table, t), a.deletes, a.outputs))
    requires Settled(s, t, table, a, x)
    requires x in s'.actv && s'.actv[x].readConflict == "" && u != x && Known(s', u) && Overlap(s', x, u)
    ensures NoClash(ActsOf(s', tb, x), ActsOf(s', tb, u))
  {
    assert Known(s, u) && Overlap(s, x, u);
    assert NoClash(ActsOf(s, tb, x), ActsOf(s, tb, u));
    if u == t && tb == table { AddKeysNoClash(ActsOf(s, tb, x), ActsOf(s, tb, u), a); }
  }

  lemma LocsRecorded(acts: Acts, table: string, a: Action, l: Loc)
    requires a.Write? && l in Locs(table, a.deletes) + Locs(table, a.outputs) && l !in Lost(acts, table, a)
    ensures var acts' := AddKeys(acts, a.deletes, a.outputs);
            l.table == table && (l.key in Nth(acts'.outputs, l.ix) || l.key in Nth(acts'.deletes, l.ix))
  {
  }

  lemma PatchedWriteTracked(w: World, s': State, t: Id, table: string, a: Action, w': World)
    requires Struct(w.ck) && Struct(s') && Tracked(w) && a.Write? && t in w.ck.actv
    requires Patched(w.ck, s', t, table, AddKeys(ActsOf(w.ck, table, t), a.deletes, a.outputs))
    requires t in s'.actv && w' == After(w, s', t, table, a)
    ensures Tracked(w')
  {
    forall x, r | x in s'.actv && s'.actv[x].readConflict == "" && r in Of(w'.scans, x) ensures Scanned(s', x, r) {
      assert Scanned(w.ck, x, r);
    }
    forall x, l | Known(s', x) && l in Of(w'.writes, x) && l !in Of(w'.lost, x) ensures Recorded(s', x, l) {
      assert Known(w.ck, x);
      if l in Of(w.writes, x) {
        assert Recorded(w.ck, x, l);
        if (l.table, x) == (table, t) { KeysKept(ActsOf(w.ck, table, t), a, l); }
      } else {
        LocsRecorded(ActsOf(w.ck, table, t), table, a, l);
      }
    }
  }

  lemma KeysKept(acts: Acts, a: Action, l: Loc)
    requires a.Write? && (l.key in Nth(acts.outputs, l.ix) || l.key in Nth(acts.deletes, l.ix))
    ensures var acts' := AddKeys(acts, a.deletes, a.outputs);
            l.key in Nth(acts'.outputs, l.ix) || l.key in Nth(acts'.deletes, l.ix)
  {
  }

  lemma SaveWriteInv(w: World, t: Id, table: string, a: Action, o: Oracle)
    requires Inv(w) && a.Write? && t in w.ck.actv && w.ck.actv[t].hasUpdates
    requires forall u :: Settled(w.ck, t, table, a, u)
    ensures Inv(After(w, Save(w.ck, t, table, a, o, true), t, table, a))
  {
    if !o.room {
      AbortInv(w, t);
    } else {
      var acts := AddKeys(ActsOf(w.ck, table, t), a.deletes, a.outputs);
      var s' := PutActs(w.ck, t, table, acts);
      var w' := After(w, s', t, table, a);
      PutActsKeeps(w.ck, t, table, acts);
      assert Patched(w.ck, s', t, table, acts);
      PatchedWriteFree(w.ck, s', t, table, a);
      PatchedWriteTracked(w, s', t, table, a, w');
      PatchedRemembered(w, s', t, table, acts, w');
    }
  }

  lemma MarkUpdatesInv(w: World, t: Id)
    requires Inv(w) && t in w.ck.actv && w.ck.actv[t].readConflict == ""
    ensures Inv(w.(ck := MarkUpdates(w.ck, t)))
  {
    MarkUpdatesKeeps(w.ck, t);
    BelowInv(w, MarkUpdates(w.ck, t));
  }

  // ----- actions ------------------------------------------------------------------------

  /** The bookkeeping depends on the old state only through `t`'s own actions. */
  lemma AfterSame(w: World, s1: State, s: State, t: Id, table: string, a: Action)
    requires ActsOf(s1, table, t) == ActsOf(w.ck, table, t)
    ensures After(w.(ck := s1), s, t, table, a) == After(w, s, t, table, a)
  {
  }

  lemma CheckedInv(w: World, t: Id, table: string, a: Action, o: Oracle)
    requires Inv(w) && (forall v | (table, v) in w.ck.acts :: v in o.order)
    requires a.Write? && t in w.ck.actv ==> w.ck.actv[t].hasUpdates
    ensures Inv(After(w, Checked(w.ck, t, table, a, o, true), t, table, a))
  {
    var s1 := CheckAll(w.ck, t, table, a, o.order, o.heads, true);
    CheckAllInv(w, t, table, a, o);
    CheckAllShrinks(w.ck, t, table, a, o.order, o.heads, true);
    if t in s1.actv {
      ShrunkIsBelow(w.ck, s1);
      AfterSame(w, s1, Save(s1, t, table, a, o, true), t, table, a);
      forall u ensures Settled(s1, t, table, a, u) {
        NobodyClashes(w.ck, s1, t, table, a, o, u);
      }
      if a.Read? {
        SaveReadInv(w.(ck := s1), t, table, a, o);
      } else {
        SaveWriteInv(w.(ck := s1), t, table, a, o);
      }
    }
  }

  lemma ActInv(w: World, t: Id, table: string, a: Action, o: Oracle)
    requires Inv(w) && (forall v | (table, v) in w.ck.acts :: v in o.order)
    ensures Inv(After(w, DoAct(w.ck, t, table, a, o, true), t, table, a))
  {
    var s := w.ck;
    if t !in s.actv {
      assert After(w, s, t, table, a) == w;
    } else if a.Read? {
      if s.actv[t].readConflict != "" {
        UntrackedReadInv(w, t, table, a);
      } else {
        CheckedInv(w, t, table, a, o);
      }
    } else if s.actv[t].readConflict != "" && !s.actv[t].hasUpdates {
      AbortInv(w, t);
    } else {
      MarkUpdatesInv(w, t);
      if Excluded(s, t, table) {
        AbortInv(w.(ck := MarkUpdates(s, t)), t);
      } else {
        CheckedInv(w.(ck := MarkUpdates(s, t)), t, table, a, o);
        AfterSame(w, MarkUpdates(s, t), Checked(MarkUpdates(s, t), t, table, a, o, true), t, table, a);
      }
    }
  }

  // ----- commits and the other messages -----------------------------------------------------

  lemma CommittedFree(s: State, id: Id)
    requires Struct(s) && Free(s) && id in s.actv
    ensures Free(Committed(s, id))
  {
    var s' := Committed(s, id);
    CommittedKeeps(s, id);
    forall t, u, table | t in s'.actv && s'.actv[t].readConflict == "" && u != t && Known(s', u) && Overlap(s', t, u)
      ensures NoClash(ActsOf(s', table, t), ActsOf(s', table, u))
    {
      assert Known(s, u) && Overlap(s, t, u);
      assert NoClash(ActsOf(s, table, t), ActsOf(s, table, u));
      CommittedActs(s, id, s', table, t);
      CommittedActs(s, id, s', table, u);
    }
  }

  lemma CommittedActs(s: State, id: Id, s': State, table: string, u: Id)
    requires id in s.actv && s' == Committed(s, id)
    ensures u != id ==> ActsOf(s', table, u) == ActsOf(s, table, u)
    ensures s.actv[id].hasUpdates ==> ActsOf(s', table, u).outputs == ActsOf(s, table, u).outputs
    ensures s.actv[id].hasUpdates ==> ActsOf(s', table, u).deletes == ActsOf(s, table, u).deletes
  {
  }

  lemma CommittedTracked(w: World, id: Id)
    requires Struct(w.ck) && Tracked(w) && id in w.ck.actv
    ensures Tracked(w.(ck := Committed(w.ck, id)))
  {
    var s' := Committed(w.ck, id);
    var w' := w.(ck := s');
    forall t, r | t in s'.actv && s'.actv[t].readConflict == "" && r in Of(w'.scans, t) ensures Scanned(s', t, r) {
      assert Scanned(w.ck, t, r);
    }
    forall t, l | Known(s', t) && l in Of(w'.writes, t) && l !in Of(w'.lost, t) ensures Recorded(s', t, l) {
      assert Known(w.ck, t) && Recorded(w.ck, t, l);
    }
  }

  lemma CommittedRemembered(w: World, id: Id)
    requires Struct(w.ck) && Remembered(w) && id in w.ck.actv
    ensures Remembered(w.(ck := Committed(w.ck, id), log := w.log + [Finished(w, id)]))
  {
    var s' := Committed(w.ck, id);
    var w' := w.(ck := s', log := w.log + [Finished(w, id)]);
    forall d, t | d in w'.log && d.updates && t in s'.actv && t < d.end ensures RememberedBy(w', d) {
      if d in w.log { assert RememberedBy(w, d); }
    }
  }

  /** The heart of the matter: what `id` has read was not overwritten by anyone who
      committed since `id` started. */
  lemma FinishedClashesWithNone(w: World, id: Id, b: Done, r: Scan, l: Loc)
    requires Inv(w) && id in w.ck.actv && w.ck.actv[id].hasUpdates
    requires b in w.log && b.updates && id < b.end
    requires r in Of(w.scans, id) && l in b.writes && l !in b.lost
    ensures !Hits(r, l)
  {
    assert RememberedBy(w, b);
    assert Known(w.ck, b.id) && Overlap(w.ck, id, b.id);
    assert Scanned(w.ck, id, r) && Recorded(w.ck, b.id, l);
    assert NoClash(ActsOf(w.ck, r.table, id), ActsOf(w.ck, r.table, b.id));
  }

  lemma FinishedSerial(w: World, id: Id)
    requires Inv(w) && id in w.ck.actv
    ensures InOrder(w.log + [Finished(w, id)]) && Serial(w.log + [Finished(w, id)])
  {
    var c := Finished(w, id);
    forall a, b, r, l | a in w.log + [c] && b in w.log + [c] && a.updates && b.updates && During(b, a) &&
      r in a.scans && l in b.writes && l !in b.lost ensures !Hits(r, l)
    {
      if a in w.log {
        assert b in w.log;
      } else {
        FinishedClashesWithNone(w, id, b, r, l);
      }
    }
  }

  lemma CommittedInv(w: World, id: Id)
    requires Inv(w) && id in w.ck.actv
    ensures Inv1(Logged(w, Committed(w.ck, id), id))
    ensures Committed(w.ck, id).oldest.At? ==> Pruned(Committed(w.ck, id))
  {
    CommittedKeeps(w.ck, id);
    CommittedFree(w.ck, id);
    CommittedTracked(w, id);
    CommittedRemembered(w, id);
    FinishedSerial(w, id);
  }

  lemma CleanEndedInv(w: World)
    requires Inv1(w)
    ensures Inv(w.(ck := CleanEnded(w.ck, true)))
  {
    CleanEndedShrinks(w.ck, true);
    ShrunkInv(w, CleanEnded(w.ck, true));
  }

  lemma CommitInv(w: World, id: Id)
    requires Inv(w) && id in w.ck.actv
    ensures Inv(Logged(w, Commit(w.ck, id, true), id))
  {
    CommittedInv(w, id);
    CleanEndedInv(Logged(w, Committed(w.ck, id), id));
  }

  lemma StartFree(s: State)
    requires Struct(s) && Free(s)
    ensures Free(StartTran(s))
  {
    var s', n := StartTran(s), s.seqno + 2;
    assert forall table, k :: ActsOf(s', table, k) == ActsOf(s, table, k);
    assert forall table :: ActsOf(s, table, n) == NO_ACTS;
    forall t, u, table | t in s'.actv && s'.actv[t].readConflict == "" && u != t && Known(s', u) && Overlap(s', t, u)
      ensures NoClash(ActsOf(s', table, t), ActsOf(s', table, u))
    {
      if t == n {
        assert ActsOf(s', table, t) == NO_ACTS;
      } else if u == n {
        assert ActsOf(s', table, u) == NO_ACTS;
      } else {
        assert Known(s, u) && Overlap(s, t, u);
      }
    }
  }

  lemma StartInv(w: World)
    requires Inv(w)
    ensures Inv(Next(w, MStart))
  {
    var s, w' := w.ck, Next(w, MStart);
    StartFree(s);
    forall t, r | t in w'.ck.actv && w'.ck.actv[t].readConflict == "" && r in Of(w'.scans, t) ensures Scanned(w'.ck, t, r) {
      assert t in s.actv && Scanned(s, t, r);
    }
    forall t, l | Known(w'.ck, t) && l in Of(w'.writes, t) && l !in Of(w'.lost, t) ensures Recorded(w'.ck, t, l) {
      assert Known(s, t) && Recorded(s, t, l);
    }
    forall d, t | d in w.log && d.updates && t in w'.ck.actv && t < d.end ensures RememberedBy(w', d) {
      assert RememberedBy(w, d);
    }
  }

  lemma AddExclusiveInv(w: World, table: string, order: seq<Id>)
    requires Inv(w)
    ensures Inv(w.(ck := AddExclusive(w.ck, table, order, true)))
  {
    var s' := AddExclusive(w.ck, table, order, true);
    if Exclusive(w.ck, table) {
      assert w.(ck := s') == w;
    } else {
      var s1 := AbortWriters(w.ck, table, order, true);
      AbortWritersShrinks(w.ck, table, order, true);
      ShrunkInv(w, s1);
      SeqnoInv(w.(ck := s1), s');
    }
  }

  lemma EndExclusiveInv(w: World, table: string)
    requires Inv(w)
    ensures Inv(w.(ck := EndExclusive(w.ck, table, true)))
  {
    if Exclusive(w.ck, table) {
      SeqnoInv(w, Released(w.ck, table));
      CleanEndedInv(w.(ck := Released(w.ck, table)));
    }
  }

  lemma SeqnoInv(w: World, s1: State)
    requires Inv(w) && (forall x | x in s1.excl && s1.excl[x].At? :: s1.excl[x].n <= s1.seqno)
    requires s1 == w.ck.(seqno := s1.seqno, excl := s1.excl, clock := s1.clock) && w.ck.seqno <= s1.seqno
    ensures Inv(w.(ck := s1))
  {
    var w1 := w.(ck := s1);
    assert forall t, table :: ActsOf(s1, table, t) == ActsOf(w.ck, table, t);
    assert forall t | Known(s1, t) :: Known(w.ck, t);
    forall t, u, table | t in s1.actv && s1.actv[t].readConflict == "" && u != t && Known(s1, u) && Overlap(s1, t, u)
      ensures NoClash(ActsOf(s1, table, t), ActsOf(s1, table, u))
    {
      assert Overlap(w.ck, t, u);
    }
    forall d, t | d in w.log && d.updates && t in s1.actv && t < d.end ensures RememberedBy(w1, d) {
      assert RememberedBy(w, d);
    }
    forall t, r | t in s1.actv && s1.actv[t].readConflict == "" && r in Of(w1.scans, t) ensures Scanned(s1, t, r) {
      assert Scanned(w.ck, t, r);
    }
    forall t, l | Known(s1, t) && l in Of(w1.writes, t) && l !in Of(w1.lost, t) ensures Recorded(s1, t, l) {
      assert Recorded(w.ck, t, l);
    }
  }

  lemma AbortAgedInv(w: World, order: seq<Id>)
    requires Inv(w)
    ensures Inv(w.(ck := AbortAged(w.ck, order, true)))
  {
    AbortAgedShrinks(w.ck, order, true);
    ShrunkInv(w, AbortAged(w.ck, order, true));
  }

  lemma TickInv(w: World, order: seq<Id>)
    requires Inv(w)
    ensures Inv(Next(w, MTick(order)))
  {
    var s1 := w.ck.(clock := w.ck.clock + 1);
    SeqnoInv(w, s1);
    AbortAgedInv(w.(ck := s1), order);
  }

  lemma NextInv(w: World, m: Msg)
    requires Inv(w) && Visits(w.ck, m)
    ensures Inv(Next(w, m))
  {
    match m
    case MStart => StartInv(w);
    case MAct(t, table, a, o) => ActInv(w, t, table, a, o);
    case MCommit(t) => if t in w.ck.actv { CommitInv(w, t); }
    case MAbort(t) => AbortInv(w, t);
    case MAddExclusive(table, order) => AddExclusiveInv(w, table, order);
    case MEndExclusive(table) => EndExclusiveInv(w, table);
    case MTick(order) => TickInv(w, order);
  }

  lemma ValidPrefix(msgs: seq<Msg>, n: nat)
    requires ValidRun(msgs) && n <= |msgs|
    ensures ValidRun(msgs[..n])
  {
    forall i | 0 <= i < n ensures Visits(Run(msgs[..n][..i]).ck, msgs[..n][i]) {
      assert msgs[..n][..i] == msgs[..i];
    }
  }

  lemma {:induction false} RunInv(msgs: seq<Msg>)
    requires ValidRun(msgs)
    ensures Inv(Run(msgs))
  {
    if msgs == [] {
    } else {
      var n := |msgs| - 1;
      ValidPrefix(msgs, n);
      RunInv(msgs[..n]);
      assert Visits(Run(msgs[..n]).ck, msgs[n]);
      NextInv(Run(msgs[..n]), msgs[n]);
    }
  }
}
