/** Exactly when a run is serializable. The checker's guarantee has one hole, the empty key
    that ordset loses, and the hole matters exactly when somebody reads through it.
 */
module CheckExact {
  import opened CheckModel
  import opened CheckInvariant
  import opened CheckSerial
  import opened CheckReplay
  import opened CheckExclusive

  // ----- what the history says of lost places ---------------------------------------------

  ghost predicate LostAreWritten(w: World) {
    forall t, l | l in Of(w.lost, t) :: l in Of(w.writes, t)
  }

  /** A place is lost only by writing it, and only updating transactions write. */
  ghost predicate Honest(d: Done) {
    d.lost <= d.writes && (d.writes != {} ==> d.updates)
  }

  lemma AfterLost(w: World, s: State, t: Id, table: string, a: Action)
    requires LostAreWritten(w)
    ensures LostAreWritten(After(w, s, t, table, a))
  {
    if t in s.actv && a.Write? {
      var w' := After(w, s, t, table, a);
      forall u, l | l in Of(w'.lost, u) ensures l in Of(w'.writes, u) {
        if u != t { assert l in Of(w.lost, u); }
        else if l in Of(w.lost, t) { assert l in Of(w.writes, t); }
        else { assert l in Locs(table, a.deletes) + Locs(table, a.outputs); }
      }
    }
  }

  lemma FinishedHonest(w: World, t: Id)
    requires Struct(w.ck) && Traced(w) && LostAreWritten(w) && t in w.ck.actv
    ensures Honest(Finished(w, t))
  {
    var d := Finished(w, t);
    if d.writes != {} {
      var l := Pick(d.writes);
      assert Wrote(ActsOf(w.ck, l.table, t)) && (l.table, t) in w.ck.acts;
    }
  }

  lemma NextHonest(w: World, m: Msg)
    requires Struct(w.ck) && Traced(w) && LostAreWritten(w) && forall d | d in w.log :: Honest(d)
    ensures LostAreWritten(Next(w, m)) && forall d | d in Next(w, m).log :: Honest(d)
  {
    match m
    case MAct(t, table, a, o) => AfterLost(w, Step(w.ck, m, true), t, table, a);
    case MCommit(t) => if t in w.ck.actv { FinishedHonest(w, t); }
    case _ =>
  }

  lemma {:induction false} RunHonest(msgs: seq<Msg>)
    requires ValidRun(msgs)
    ensures LostAreWritten(Run(msgs)) && forall d | d in Run(msgs).log :: Honest(d)
  {
    if msgs != [] {
      var n := |msgs| - 1;
      ValidPrefix(msgs, n);
      RunHonest(msgs[..n]);
      WritesOutsideExclusives(msgs[..n]);
      NextHonest(Run(msgs[..n]), msgs[n]);
    }
  }

  // ----- a database and programs that notice --------------------------------------------

  /** Transaction `i` puts a value at `l`; transaction `j` takes away what it finds there;
      the others do nothing. */
  ghost function Noticing<V>(n: nat, i: nat, j: nat, l: Loc, v: V): (ps: seq<map<Loc, V> -> map<Loc, Change<V>>>)
    ensures |ps| == n
  {
    seq(n, (k: nat) =>
      if k == i then (view: map<Loc, V>) => map[l := Put(v)]
      else if k == j then (view: map<Loc, V>) => if l in view then map[l := Remove] else map[]
      else (view: map<Loc, V>) => map[])
  }

  /** What they do when `j` works from a snapshot taken before `i` commits. */
  ghost function Unnoticed<V>(n: nat, i: nat, l: Loc, v: V): (es: seq<map<Loc, Change<V>>>)
    ensures |es| == n
  {
    seq(n, (k: nat) => if k == i then map[l := Put(v)] else map[])
  }

  lemma {:induction false} ReplayUnnoticed<V>(n: nat, i: nat, l: Loc, v: V, k: nat)
    requires k <= n
    ensures Replay(map[], Unnoticed(n, i, l, v)[..k]) == if i < k then map[l := v] else map[]
  {
    var es := Unnoticed(n, i, l, v);
    if k > 0 {
      ReplayUnnoticed(n, i, l, v, k - 1);
      assert es[..k][..k - 1] == es[..k - 1];
    }
  }

  lemma {:induction false} SerialNoticing<V>(log: seq<Done>, i: nat, j: nat, l: Loc, v: V, k: nat)
    requires i < j < |log| && k <= |log| && log[i].updates && log[j].updates && Covered(log[j].scans, l)
    ensures SerialRun(map[], log[..k], Noticing(|log|, i, j, l, v)[..k]) ==
            if i < k <= j then map[l := v] else map[]
  {
    if k > 0 {
      SerialNoticing(log, i, j, l, v, k - 1);
      SerialRunStep(map[], log, Noticing(|log|, i, j, l, v), k);
      if k == j + 1 { assert l in View(map[l := v], log[j].scans); }
    }
  }

  /** Each entry's effect is what its program computes from its snapshot. */
  lemma NoticingFromSnapshot<V>(log: seq<Done>, i: nat, j: nat, l: Loc, v: V, k: nat)
    requires InOrder(log) && i < j < |log| && During(log[i], log[j]) && k < |log|
    ensures var es := Unnoticed(|log|, i, l, v);
      es[k] == Noticing(|log|, i, j, l, v)[k](View(Replay(map[], es[..Visible(log, log[k].id)]), log[k].scans))
  {
    if k == j { ReplayUnnoticed(|log|, i, l, v, Visible(log, log[j].id)); }
  }

  lemma NoticingIsARun<V>(log: seq<Done>, i: nat, j: nat, l: Loc, v: V)
    requires InOrder(log) && i < j < |log| && During(log[i], log[j]) && log[i].updates && l in log[i].writes
    ensures Effects(log, Unnoticed(|log|, i, l, v))
    ensures FromSnapshots(map[], log, Unnoticed(|log|, i, l, v), Noticing(|log|, i, j, l, v))
  {
    var es, ps := Unnoticed(|log|, i, l, v), Noticing(|log|, i, j, l, v);
    forall k | 0 <= k < |log| && log[k].updates
      ensures es[k] == ps[k](View(Replay(map[], es[..Visible(log, log[k].id)]), log[k].scans))
    {
      NoticingFromSnapshot(log, i, j, l, v, k);
    }
  }

  /** A later committer that reads what an overlapping one wrote can tell the difference. */
  lemma ReadThroughIsNoticed<V(!new)>(log: seq<Done>, i: nat, j: nat, l: Loc, v: V)
    requires InOrder(log) && i < j < |log| && log[i].updates && log[j].updates && During(log[i], log[j])
    requires l in log[i].writes && Covered(log[j].scans, l)
    ensures !Serializable<V>(log)
  {
    var n := |log|;
    var effects, programs := Unnoticed(n, i, l, v), Noticing(n, i, j, l, v);
    NoticingIsARun(log, i, j, l, v);
    ReplayUnnoticed(n, i, l, v, n);
    SerialNoticing(log, i, j, l, v, n);
    assert log[..n] == log && programs[..n] == programs && effects[..n] == effects;
    assert SerialRun(map[], log, programs) == map[] && l in Replay(map[], effects);
  }

  /** Main theorem: a run of the checker is serializable, in the order of the commits, for all
      databases and all that transactions may compute, if and only if no lost key is read by an
      updating transaction that overlapped the writer and committed after it. */
  lemma SerializableExactlyWhenHarmless<V(!new)>(msgs: seq<Msg>, v: V)
    requires ValidRun(msgs)
    ensures Serializable<V>(Run(msgs).log) <==> Harmless(Run(msgs).log)
  {
    var log := Run(msgs).log;
    if Harmless(log) {
      EveryRunIsSerializable<V>(msgs);
    } else {
      var i: nat, j: nat, l :| i < j < |log| && log[j].updates && During(log[i], log[j]) && l in log[i].lost &&
                     Covered(log[j].scans, l);
      RunHonest(msgs);
      RunInv(msgs);
      assert Honest(log[i]);
      ReadThroughIsNoticed(log, i, j, l, v);
    }
  }
}
