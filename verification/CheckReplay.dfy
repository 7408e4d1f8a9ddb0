/** What serializability means for the data: the committed transactions of any run, executed
    one after the other in commit order, read and write exactly what they did concurrently.
 */
module CheckReplay {
  import opened CheckModel
  import opened CheckInvariant
  import opened CheckSerial

  /** A database maps places to values; a transaction puts or removes values. */
  datatype Change<V> = Put(value: V) | Remove

  function Apply<V>(db: map<Loc, V>, e: map<Loc, Change<V>>): map<Loc, V> {
    map l | l in db.Keys + e.Keys && !(l in e && e[l].Remove?) :: if l in e then e[l].value else db[l]
  }

  function Replay<V>(db: map<Loc, V>, effects: seq<map<Loc, Change<V>>>): map<Loc, V> {
    if effects == [] then db
    else Apply(Replay(db, effects[..|effects| - 1]), effects[|effects| - 1])
  }

  /** The number of commits that a transaction starting at `start` sees. */
  ghost function Visible(log: seq<Done>, start: int): (n: nat)
    ensures n <= |log|
    ensures InOrder(log) ==> forall i | 0 <= i < |log| :: i < n <==> log[i].end <= start
  {
    if log == [] || log[|log| - 1].end <= start then |log|
    else Visible(log[..|log| - 1], start)
  }

  ghost predicate Covered(scans: set<Scan>, l: Loc) {
    exists r | r in scans :: Hits(r, l)
  }

  /** The part of a database that a transaction looks at. */
  ghost function View<V>(db: map<Loc, V>, scans: set<Scan>): map<Loc, V> {
    map l | l in db && Covered(scans, l) :: db[l]
  }

  ghost predicate AgreeAt<V>(a: map<Loc, V>, b: map<Loc, V>, l: Loc) {
    (l in a <==> l in b) && (l in a ==> a[l] == b[l])
  }

  /** The effects a log allows: each transaction changes only places it reported, and
      a read-only one changes nothing. */
  ghost predicate Effects<V>(log: seq<Done>, effects: seq<map<Loc, Change<V>>>) {
    && |effects| == |log|
    && forall i | 0 <= i < |log| :: effects[i].Keys <= if log[i].updates then log[i].writes else {}
  }

  /** A place that an updating transaction reads, and that no overlapping one has lost a
      write to, still has at its commit the value of its snapshot. */
  lemma {:induction false} SnapshotStillCurrent<V>(log: seq<Done>, effects: seq<map<Loc, Change<V>>>,
                                                   db: map<Loc, V>, j: nat, v: nat, n: nat, l: Loc)
    requires InOrder(log) && Serial(log) && Effects(log, effects)
    requires j < |log| && log[j].updates && Visible(log, log[j].id) == v <= n <= j
    requires Covered(log[j].scans, l)
    requires forall i | 0 <= i < j && During(log[i], log[j]) :: l !in log[i].lost
    ensures AgreeAt(Replay(db, effects[..v]), Replay(db, effects[..n]), l)
  {
    if n > v {
      var i := n - 1;
      SnapshotStillCurrent(log, effects, db, j, v, i, l);
      CommittedDuring(log, j, i);
      NotWritten(log, effects, i, j, l);
      ReplayStep(db, effects, n);
      ApplyElsewhere(Replay(db, effects[..i]), effects[i], l);
      AgreeTrans(Replay(db, effects[..v]), Replay(db, effects[..i]), Replay(db, effects[..n]), l);
    }
  }

  lemma ReplayStep<V>(db: map<Loc, V>, effects: seq<map<Loc, Change<V>>>, n: nat)
    requires 0 < n <= |effects|
    ensures Replay(db, effects[..n]) == Apply(Replay(db, effects[..n - 1]), effects[n - 1])
  {
    assert effects[..n][..n - 1] == effects[..n - 1];
  }

  lemma AgreeTrans<V>(a: map<Loc, V>, b: map<Loc, V>, c: map<Loc, V>, l: Loc)
    requires AgreeAt(a, b, l) && AgreeAt(b, c, l)
    ensures AgreeAt(a, c, l)
  {
  }

  /** What a transaction does not see but is committed before it was committed during it. */
  lemma CommittedDuring(log: seq<Done>, j: nat, i: nat)
    requires j < |log| && InOrder(log) && Visible(log, log[j].id) <= i < j
    ensures During(log[i], log[j])
  {
  }

  lemma NotWritten<V>(log: seq<Done>, effects: seq<map<Loc, Change<V>>>, i: nat, j: nat, l: Loc)
    requires Serial(log) && Effects(log, effects) && i < |log| && j < |log| && log[j].updates && During(log[i], log[j])
    requires Covered(log[j].scans, l) && l !in log[i].lost
    ensures l !in effects[i]
  {
    var r :| r in log[j].scans && Hits(r, l);
    assert log[j] in log && log[i] in log;
  }

  lemma ApplyElsewhere<V>(db: map<Loc, V>, e: map<Loc, Change<V>>, l: Loc)
    requires l !in e
    ensures AgreeAt(db, Apply(db, e), l)
  {
  }

  /** Each committed transaction run alone, in commit order, on the state left by the previous one. */
  ghost function SerialRun<V>(db: map<Loc, V>, log: seq<Done>,
                              programs: seq<map<Loc, V> -> map<Loc, Change<V>>>): map<Loc, V>
    requires |programs| == |log|
    decreases |log|
  {
    if log == [] then db
    else
      var n := |log| - 1;
      var before := SerialRun(db, log[..n], programs[..n]);
      if log[n].updates then Apply(before, programs[n](View(before, log[n].scans))) else before
  }

  /** The transactions of a log run alone, one after the other, in any given order. */
  ghost function SerialIn<V>(db: map<Loc, V>, log: seq<Done>, programs: seq<map<Loc, V> -> map<Loc, Change<V>>>,
                             order: seq<nat>): map<Loc, V>
    requires |programs| == |log| && forall i | 0 <= i < |order| :: order[i] < |log|
  {
    if order == [] then db
    else
      var k := order[|order| - 1];
      var before := SerialIn(db, log, programs, order[..|order| - 1]);
      if log[k].updates then Apply(before, programs[k](View(before, log[k].scans))) else before
  }

  /** `order` lists the first `n` transactions, each once. */
  predicate Orders(order: seq<nat>, n: nat) {
    && |order| == n && (forall i | 0 <= i < n :: order[i] < n)
    && (forall i, j | 0 <= i < j < n :: order[i] != order[j])
  }

  /** Each updating transaction computed its effect from the snapshot taken when it started. */
  ghost predicate FromSnapshots<V>(db: map<Loc, V>, log: seq<Done>, effects: seq<map<Loc, Change<V>>>,
                                   programs: seq<map<Loc, V> -> map<Loc, Change<V>>>) {
    && |programs| == |log| == |effects|
    && forall j | 0 <= j < |log| && log[j].updates ::
         effects[j] == programs[j](View(Replay(db, effects[..Visible(log, log[j].id)]), log[j].scans))
  }

  /** No write that ordset lost lies in a range read by an updating transaction that was
      running when the writer committed and itself committed later. */
  ghost predicate Harmless(log: seq<Done>) {
    forall i, j, l | 0 <= i < j < |log| && log[j].updates && During(log[i], log[j]) && l in log[i].lost ::
      !Covered(log[j].scans, l)
  }

  lemma SameView<V>(log: seq<Done>, effects: seq<map<Loc, Change<V>>>, db: map<Loc, V>, j: nat)
    requires InOrder(log) && Serial(log) && Effects(log, effects)
    requires (forall d | d in log :: d.id < d.end) && Harmless(log)
    requires j < |log| && log[j].updates
    ensures View(Replay(db, effects[..Visible(log, log[j].id)]), log[j].scans) ==
            View(Replay(db, effects[..j]), log[j].scans)
  {
    var v := Visible(log, log[j].id);
    assert log[j] in log && v <= j;
    forall l | Covered(log[j].scans, l) ensures AgreeAt(Replay(db, effects[..v]), Replay(db, effects[..j]), l) {
      SnapshotStillCurrent(log, effects, db, j, v, j, l);
    }
    SameViews(Replay(db, effects[..v]), Replay(db, effects[..j]), log[j].scans);
  }

  lemma SameViews<V>(a: map<Loc, V>, b: map<Loc, V>, scans: set<Scan>)
    requires forall l | Covered(scans, l) :: AgreeAt(a, b, l)
    ensures View(a, scans) == View(b, scans)
  {
    assert forall l | l in View(a, scans) :: AgreeAt(a, b, l);
    assert forall l | l in View(b, scans) :: AgreeAt(a, b, l);
  }

  lemma ApplyNothing<V>(db: map<Loc, V>)
    ensures Apply(db, map[]) == db
  {
  }

  lemma SerialRunStep<V>(db: map<Loc, V>, log: seq<Done>, programs: seq<map<Loc, V> -> map<Loc, Change<V>>>, n: nat)
    requires |programs| == |log| && 0 < n <= |log|
    ensures var before := SerialRun(db, log[..n - 1], programs[..n - 1]);
            SerialRun(db, log[..n], programs[..n]) ==
            if log[n - 1].updates then Apply(before, programs[n - 1](View(before, log[n - 1].scans))) else before
  {
    assert log[..n][..n - 1] == log[..n - 1] && programs[..n][..n - 1] == programs[..n - 1];
  }

  lemma SerialInStep<V>(db: map<Loc, V>, log: seq<Done>, programs: seq<map<Loc, V> -> map<Loc, Change<V>>>, order: seq<nat>)
    requires |programs| == |log| && (forall i | 0 <= i < |order| :: order[i] < |log|) && order != []
    ensures var before := SerialIn(db, log, programs, order[..|order| - 1]);
            var k := order[|order| - 1];
            SerialIn(db, log, programs, order) ==
            if log[k].updates then Apply(before, programs[k](View(before, log[k].scans))) else before
  {
  }

  /** Running in the order of the commits is one of the serial orders. */
  lemma {:induction false} InCommitOrder<V>(db: map<Loc, V>, log: seq<Done>,
                                            programs: seq<map<Loc, V> -> map<Loc, Change<V>>>, n: nat)
    requires |programs| == |log| && n <= |log|
    ensures var order := seq(n, (k: nat) => k);
      Orders(order, n) && SerialIn(db, log, programs, order) == SerialRun(db, log[..n], programs[..n])
  {
    var order := seq(n, (k: nat) => k);
    if n > 0 {
      InCommitOrder(db, log, programs, n - 1);
      assert order[..n - 1] == seq(n - 1, (k: nat) => k);
      SerialRunStep(db, log, programs, n);
    }
  }

  lemma {:induction false} SerialRunAgrees<V>(db: map<Loc, V>, log: seq<Done>, effects: seq<map<Loc, Change<V>>>,
                                              programs: seq<map<Loc, V> -> map<Loc, Change<V>>>, n: nat)
    requires InOrder(log) && Serial(log) && Effects(log, effects) && n <= |log|
    requires (forall d | d in log :: d.id < d.end) && Harmless(log)
    requires FromSnapshots(db, log, effects, programs)
    ensures SerialRun(db, log[..n], programs[..n]) == Replay(db, effects[..n])
  {
    if n == 0 {
    } else {
      var j := n - 1;
      SerialRunAgrees(db, log, effects, programs, j);
      SerialRunStep(db, log, programs, n);
      ReplayStep(db, effects, n);
      if log[j].updates {
        SameView(log, effects, db, j);
      } else {
        assert effects[j] == map[];
        ApplyNothing(Replay(db, effects[..j]));
      }
    }
  }

  // ----- runs -----------------------------------------------------------------------

  /** In this state `m` would make the checker lose an empty key. */
  ghost predicate LosesKey(s: State, m: Msg) {
    m.MAct? && m.a.Write? && Lost(ActsOf(s, m.table, m.t), m.table, m.a) != {}
  }

  ghost predicate NoneLost(w: World) {
    (forall t | t in w.lost :: w.lost[t] == {}) && (forall d | d in w.log :: d.lost == {})
  }

  lemma {:induction false} RunLosesNone(msgs: seq<Msg>)
    requires forall i | 0 <= i < |msgs| :: !LosesKey(Run(msgs[..i]).ck, msgs[i])
    ensures NoneLost(Run(msgs))
  {
    if msgs == [] {
    } else {
      var n := |msgs| - 1;
      forall i | 0 <= i < n ensures !LosesKey(Run(msgs[..n][..i]).ck, msgs[..n][i]) {
        assert msgs[..n][..i] == msgs[..i];
      }
      RunLosesNone(msgs[..n]);
      NextLosesNone(Run(msgs[..n]), msgs[n]);
    }
  }

  lemma NextLosesNone(w: World, m: Msg)
    requires NoneLost(w) && !LosesKey(w.ck, m)
    ensures NoneLost(Next(w, m))
  {
  }

  /** A condition that can be checked message by message: when no message loses a key,
      nothing lost can do harm. */
  lemma NothingLostIsHarmless(msgs: seq<Msg>)
    requires forall i | 0 <= i < |msgs| :: !LosesKey(Run(msgs[..i]).ck, msgs[i])
    ensures Harmless(Run(msgs).log)
  {
    RunLosesNone(msgs);
  }

  /** Whatever the database and whatever the transactions compute from what they read,
      executing the committed ones one at a time, in the order of their commits, gives the
      database that their concurrent execution gave. */
  ghost predicate Serializable<V(!new)>(log: seq<Done>) {
    forall db: map<Loc, V>, effects, programs | Effects(log, effects) && FromSnapshots(db, log, effects, programs) ::
      SerialRun(db, log, programs) == Replay(db, effects)
  }

  /** Every run of the checker in which no lost key does harm is serializable. */
  lemma EveryRunIsSerializable<V(!new)>(msgs: seq<Msg>)
    requires ValidRun(msgs)
    requires Harmless(Run(msgs).log)
    ensures Serializable<V>(Run(msgs).log)
  {
    RunInv(msgs);
    var log := Run(msgs).log;
    forall db: map<Loc, V>, effects, programs | Effects(log, effects) && FromSnapshots(db, log, effects, programs)
      ensures SerialRun(db, log, programs) == Replay(db, effects)
    {
      SerialRunAgrees(db, log, effects, programs, |log|);
      assert log[..|log|] == log && programs[..|log|] == programs && effects[..|log|] == effects;
    }
  }
}
