/** The one way in which the guarantee fails: an empty key written into an empty set is not
    recorded, so a later read of it by an overlapping transaction is not seen to conflict.
 */
module CheckLost {
  import opened CheckModel
  import opened CheckInvariant
  import opened CheckSerial
  import opened CheckReplay
  import opened Seal

  const T := "tbl"
  const O := Oracle([3, 5], {}, 1, true)

  /** Two transactions start. The second reads "x", writes the empty key and commits; the
      first then reads the empty key, writes "x" and commits too. */
  const RUN: seq<Msg> := [
    MStart, MStart,
    MAct(5, T, Read(0, "x", "x"), O), MAct(5, T, Write(Output, [], [""]), O), MCommit(5),
    MAct(3, T, Read(0, "", ""), O), MAct(3, T, Write(Output, [], ["x"]), O), MCommit(3)]

  lemma Started(s: State)
    requires s == StartTran(StartTran(INITIAL))
    ensures s.actv == map[3 := Tran(Never, 0, 0, false, ""), 5 := Tran(Never, 0, 0, false, "")]
    ensures s.cmtd == map[] && s.acts == map[] && s.excl == map[] && s.seqno == 5 && s.oldest == Never && s.clock == 0
  {
  }

  /** An action of `t` that clashes with nobody. */
  lemma QuietAct(s: State, t: Id, a: Action, s': State)
    requires Struct(s) && t in s.actv && s.actv[t].readConflict == "" && s.excl == map[]
    requires s' == DoAct(s, t, T, a, O, true)
    requires s.actv[t].readCount + 1 < READ_MAX
    requires forall u | u in O.order :: u != t ==> !Clashes(a, ActsOf(s, T, u), u in s.cmtd)
    ensures a.Write? ==>
      s' == PutActs(MarkUpdates(s, t), t, T, AddKeys(ActsOf(s, T, t), a.deletes, a.outputs))
    ensures a.Read? ==>
      s' == PutActs(Counted(s, t, T, s.actv[t].readCount + 1), t, T, AddScan(ActsOf(s, T, t), a.ix, a.from, a.to))
  {
    var s0 := if a.Write? then MarkUpdates(s, t) else s;
    assert !Conflict(s0, t, T, a, 3) && !Conflict(s0, t, T, a, 5);
    assert O.order[1..] == [5];
    assert CheckAll(s0, t, T, a, [5], O.heads, true) == s0;
    assert CheckAll(s0, t, T, a, O.order, O.heads, true) == s0;
  }

  lemma RunStep(msgs: seq<Msg>, k: nat)
    requires k < |msgs|
    ensures Run(msgs[..k + 1]) == Next(Run(msgs[..k]), msgs[k])
  {
    assert msgs[..k + 1][..k] == msgs[..k];
  }

  const READER := State(map[3 := Tran(Never, 0, 0, false, ""), 5 := Tran(Never, 0, 1, false, "")], map[],
                        map[(T, 5) := Acts([], [], [{("x", "x")}])], map[], 5, Never, 0)

  const WRITER := State(map[3 := Tran(Never, 0, 0, false, ""), 5 := Tran(Never, 0, 1, true, "")], map[],
                        map[(T, 5) := Acts([{}], [], [{("x", "x")}])], map[], 5, Never, 0)

  const MIDDLE := State(map[3 := Tran(Never, 0, 0, false, "")], map[5 := Tran(At(7), 0, 1, true, "")],
                        map[(T, 5) := Acts([{}], [], [])], map[], 7, At(3), 0)

  lemma OneRange(from: Key, to: Key)
    ensures SaveRange([], 0, from, to) == [{(from, to)}]
  {
    var r := SaveRange([], 0, from, to);
    var none: seq<set<(Key, Key)>> := [];
    assert |r| == 1 && r[0] == Nth(none, 0) + {(from, to)} && Nth(none, 0) == {};
    assert r[0] == {(from, to)};
  }

  lemma ReadOther(s: State, a: Action, s': State)
    requires s == StartTran(StartTran(INITIAL)) && a == Read(0, "x", "x") && s' == DoAct(s, 5, T, a, O, true)
    ensures s' == READER
  {
    Started(s);
    QuietAct(s, 5, a, s');
    OneRange("x", "x");
    assert s'.actv == READER.actv && s'.acts == READER.acts;
  }

  lemma ReaderOk(s: State)
    requires s == READER
    ensures Struct(s)
  {
  }

  /** When transaction 5 has written the empty key, its set of outputs is still empty. */
  lemma WroteEmpty(s: State, a: Action, s': State)
    requires s == READER && a == Write(Output, [], [""]) && s' == DoAct(s, 5, T, a, O, true)
    ensures s' == WRITER
  {
    ReaderOk(s);
    assert ActsOf(s, T, 3) == NO_ACTS;
    QuietAct(s, 5, a, s');
    assert s'.actv == WRITER.actv;
    assert SaveKeys([], [""]) == [{}] && SaveKeys([], []) == [];
  }

  lemma CommittedEmpty(s: State, s': State)
    requires s == WRITER && s' == Commit(s, 5, true)
    ensures s' == MIDDLE
  {
    var s1 := Committed(s, 5);
    assert s1.actv == map[3 := Tran(Never, 0, 0, false, "")];
    assert s1.cmtd == map[5 := Tran(At(7), 0, 1, true, "")];
    assert s1.acts == map[(T, 5) := Acts([{}], [], [])];
    assert OldestStart(s1.actv) == At(3) by { assert 3 in s1.actv; }
    assert s'.cmtd == s1.cmtd && s'.acts == s1.acts;
  }

  /** Transaction 3 has read the empty key and is none the wiser. */
  ghost predicate Unaware(s: State) {
    && Struct(s) && 3 in s.actv && s.actv[3].readConflict == "" && s.actv[3].readCount < 10
    && 5 in s.cmtd && s.excl == map[] && s.seqno == 7 && s.acts.Keys == {(T, 5), (T, 3)}
  }

  lemma MiddleOk()
    ensures Struct(MIDDLE)
  {
  }

  lemma ReadEmpty(s: State, a: Action, s': State)
    requires s == MIDDLE && a == Read(0, "", "") && s' == DoAct(s, 3, T, a, O, true)
    ensures Unaware(s')
  {
    MiddleOk();
    QuietAct(s, 3, a, s');
    DoActKeeps(s, 3, T, a, O, true);
  }

  lemma WroteOther(s: State, a: Action, s': State)
    requires Unaware(s) && a == Write(Output, [], ["x"]) && s' == DoAct(s, 3, T, a, O, true)
    ensures 3 in s'.actv && s'.actv[3].hasUpdates && s'.seqno == 7
  {
    QuietAct(s, 3, a, s');
  }

  // ----- the worlds the run passes through ------------------------------------------------

  const B := Done(5, 7, true, {Scan(T, 0, "x", "x")}, {Loc(T, 0, "")}, {Loc(T, 0, "")})
  const A := Done(3, 9, true, {Scan(T, 0, "", "")}, {Loc(T, 0, "x")}, {})

  const OPENED := START.(ck := StartTran(StartTran(INITIAL)))

  lemma FromOpened(w: World, m: Msg, w': World)
    requires w == OPENED && m == RUN[2] && w' == Next(w, m)
    ensures w' == World(READER, map[5 := B.scans], map[], map[], [])
  {
    ReadOther(w.ck, m.a, w'.ck);
    assert w'.scans[5] == B.scans;
  }

  lemma FromReader(w: World, m: Msg, w': World)
    requires w == World(READER, map[5 := B.scans], map[], map[], []) && m == RUN[3] && w' == Next(w, m)
    ensures w' == World(WRITER, map[5 := B.scans], map[5 := B.writes], map[5 := B.lost], [])
  {
    WroteEmpty(w.ck, m.a, w'.ck);
    assert Locs(T, [""]) == B.writes && Locs(T, []) == {};
    assert LostIn([], T, [""]) == B.lost && LostIn([], T, []) == {};
    assert w'.writes[5] == B.writes && w'.lost[5] == B.lost;
  }

  lemma FromWriter(w: World, m: Msg, w': World)
    requires w == World(WRITER, map[5 := B.scans], map[5 := B.writes], map[5 := B.lost], []) && m == RUN[4] && w' == Next(w, m)
    ensures w' == World(MIDDLE, map[5 := B.scans], map[5 := B.writes], map[5 := B.lost], [B])
  {
    CommittedEmpty(w.ck, w'.ck);
    assert Finished(w, 5) == B;
  }

  ghost predicate HasRead(w: World) {
    Unaware(w.ck) && Of(w.scans, 3) == A.scans && Of(w.writes, 3) == {} && Of(w.lost, 3) == {} && w.log == [B]
  }

  lemma FromMiddle(w: World, m: Msg, w': World)
    requires w == World(MIDDLE, map[5 := B.scans], map[5 := B.writes], map[5 := B.lost], [B]) && m == RUN[5] && w' == Next(w, m)
    ensures HasRead(w')
  {
    ReadEmpty(w.ck, m.a, w'.ck);
  }

  ghost predicate HasWritten(w: World) {
    && 3 in w.ck.actv && w.ck.actv[3].hasUpdates && w.ck.seqno == 7
    && Of(w.scans, 3) == A.scans && Of(w.writes, 3) == A.writes && Of(w.lost, 3) == A.lost && w.log == [B]
  }

  lemma FromRead(w: World, m: Msg, w': World)
    requires HasRead(w) && m == RUN[6] && w' == Next(w, m)
    ensures HasWritten(w')
  {
    WroteOther(w.ck, m.a, w'.ck);
    assert Locs(T, ["x"]) == A.writes && Locs(T, []) == {};
  }

  lemma FromWritten(w: World, m: Msg, w': World)
    requires HasWritten(w) && m == RUN[7] && w' == Next(w, m)
    ensures w'.log == [B, A]
  {
    assert Finished(w, 3) == A;
  }

  // The worlds after each message; what the run and its steps are is sealed.

  ghost predicate Reached(msgs: seq<Msg>, k: int, w: World) {
    var sealed := forall u: int {:trigger Open(u)} :: Open(u) ==> 0 <= k <= |msgs| && w == Run(msgs[..k]);
    sealed
  }

  ghost predicate Steps(w: World, m: Msg, w': World) {
    var sealed := forall u: int {:trigger Open(u)} :: Open(u) ==> w' == Next(w, m);
    sealed
  }

  lemma RunsOn(msgs: seq<Msg>, k: nat, w: World, w': World)
    requires k < |msgs| && Reached(msgs, k, w) && Steps(w, msgs[k], w')
    ensures Reached(msgs, k + 1, w')
  {
    assert Open(0);
    RunStep(msgs, k);
  }

  const W3 := World(READER, map[5 := B.scans], map[], map[], [])
  const W4 := World(WRITER, map[5 := B.scans], map[5 := B.writes], map[5 := B.lost], [])
  const W5 := World(MIDDLE, map[5 := B.scans], map[5 := B.writes], map[5 := B.lost], [B])

  lemma Opens(msgs: seq<Msg>)
    requires msgs == RUN
    ensures Reached(msgs, 2, OPENED)
  {
    RunStep(msgs, 0);
    RunStep(msgs, 1);
    assert msgs[..0] == [];
  }

  lemma StepsOpened(w: World)
    requires w == OPENED
    ensures Steps(w, RUN[2], W3)
  {
    FromOpened(w, RUN[2], Next(w, RUN[2]));
  }

  lemma StepsReader(w: World)
    requires w == W3
    ensures Steps(w, RUN[3], W4)
  {
    FromReader(w, RUN[3], Next(w, RUN[3]));
  }

  lemma StepsWriter(w: World)
    requires w == W4
    ensures Steps(w, RUN[4], W5)
  {
    FromWriter(w, RUN[4], Next(w, RUN[4]));
  }

  lemma StepsMiddle(w: World) returns (w': World)
    requires w == W5
    ensures Steps(w, RUN[5], w') && HasRead(w')
  {
    w' := Next(w, RUN[5]);
    FromMiddle(w, RUN[5], w');
  }

  lemma StepsRead(w: World) returns (w': World)
    requires HasRead(w)
    ensures Steps(w, RUN[6], w') && HasWritten(w')
  {
    w' := Next(w, RUN[6]);
    FromRead(w, RUN[6], w');
  }

  lemma StepsWritten(w: World) returns (w': World)
    requires HasWritten(w)
    ensures Steps(w, RUN[7], w') && w'.log == [B, A]
  {
    w' := Next(w, RUN[7]);
    FromWritten(w, RUN[7], w');
  }

  lemma ReachesReader(msgs: seq<Msg>)
    requires msgs == RUN
    ensures Reached(msgs, 3, W3)
  {
    Opens(msgs);
    StepsOpened(OPENED);
    RunsOn(msgs, 2, OPENED, W3);
  }

  lemma ReachesWriter(msgs: seq<Msg>)
    requires msgs == RUN
    ensures Reached(msgs, 4, W4)
  {
    ReachesReader(msgs);
    StepsReader(W3);
    RunsOn(msgs, 3, W3, W4);
  }

  lemma ReachesMiddle(msgs: seq<Msg>)
    requires msgs == RUN
    ensures Reached(msgs, 5, W5)
  {
    ReachesWriter(msgs);
    StepsWriter(W4);
    RunsOn(msgs, 4, W4, W5);
  }

  lemma ReachesRead(msgs: seq<Msg>) returns (w: World)
    requires msgs == RUN
    ensures Reached(msgs, 6, w) && HasRead(w)
  {
    ReachesMiddle(msgs);
    w := StepsMiddle(W5);
    RunsOn(msgs, 5, W5, w);
  }

  lemma ReachesEnd(msgs: seq<Msg>) returns (w: World)
    requires msgs == RUN
    ensures Reached(msgs, 8, w) && w.log == [B, A]
  {
    var w6 := ReachesRead(msgs);
    var w7 := StepsRead(w6);
    RunsOn(msgs, 6, w6, w7);
    w := StepsWritten(w7);
    RunsOn(msgs, 7, w7, w);
  }

  lemma Commits(msgs: seq<Msg>)
    requires msgs == RUN
    ensures Run(msgs).log == [B, A]
  {
    var w := ReachesEnd(msgs);
    ReachedIs(msgs, 8, w);
    assert msgs[..8] == msgs;
  }

  lemma VisitsAt(msgs: seq<Msg>, k: nat)
    requires msgs == RUN && k < |msgs|
    ensures Visits(Run(msgs[..k]).ck, msgs[k])
  {
    if k == 2 {
      Opens(msgs);
      ReachedIs(msgs, k, OPENED);
    } else if k == 3 {
      ReachesReader(msgs);
      ReachedIs(msgs, k, W3);
    } else if k == 5 {
      ReachesMiddle(msgs);
      ReachedIs(msgs, k, W5);
    } else if k == 6 {
      var w := ReachesRead(msgs);
      ReachedIs(msgs, k, w);
      VisitsBoth(w.ck);
    }
  }

  lemma ReachedIs(msgs: seq<Msg>, k: nat, w: World)
    requires k <= |msgs| && Reached(msgs, k, w)
    ensures Run(msgs[..k]) == w
  {
    assert Open(0);
  }

  lemma VisitsBoth(s: State)
    requires s.acts.Keys == {(T, 5), (T, 3)}
    ensures forall u | (T, u) in s.acts :: u in O.order
  {
    forall u | (T, u) in s.acts ensures u in O.order { assert (T, u) in s.acts.Keys; }
  }

  // ----- two transactions that each take what the other has left ---------------------------

  const L := Loc(T, 0, "")
  const X := Loc(T, 0, "x")

  /** Put a value at `mine` unless there is one at `other`. */
  function PutUnless(mine: Loc, other: Loc): map<Loc, int> -> map<Loc, Change<int>> {
    (view: map<Loc, int>) => if other in view then map[] else map[mine := Put(1)]
  }

  const PROGRAMS := [PutUnless(L, X), PutUnless(X, L)]
  const EFFECTS: seq<map<Loc, Change<int>>> := [map[L := Put(1)], map[X := Put(1)]]

  lemma BothPut(log: seq<Done>)
    requires log == [B, A]
    ensures Effects(log, EFFECTS) && FromSnapshots(map[], log, EFFECTS, PROGRAMS)
    ensures Replay(map[], EFFECTS) == map[L := 1, X := 1]
  {
    assert EFFECTS[..1] == [map[L := Put(1)]] && EFFECTS[..0] == [];
    assert Visible(log, 3) == 0 && Visible(log, 5) == 0;
    assert Replay(map[], EFFECTS[..0]) == map[] && Replay(map[], EFFECTS[..1]) == map[L := 1];
  }

  /** Alone and one after the other, only the first of them puts its value. */
  lemma OnlyOnePuts(log: seq<Done>, order: seq<nat>)
    requires log == [B, A] && Orders(order, 2)
    ensures SerialIn(map[], log, PROGRAMS, order) != map[L := 1, X := 1]
  {
    var k := order[0];
    var first, second := if k == 0 then L else X, if k == 0 then X else L;
    var one := SerialIn(map[], log, PROGRAMS, order[..1]);
    assert PROGRAMS[k] == PutUnless(first, second) && log[k].updates;
    var none: map<Loc, int> := map[];
    assert View(none, log[k].scans) == none;
    SerialInStep(none, log, PROGRAMS, order[..1]);
    assert SerialIn(none, log, PROGRAMS, []) == none && order[..1][..0] == [];
    assert one == Apply(none, PROGRAMS[k](none));
    assert one == map[first := 1];
    assert Hits(Scan(T, 0, "", ""), L) && Hits(Scan(T, 0, "x", "x"), X);
    assert first in View(one, log[order[1]].scans);
    SerialInStep(none, log, PROGRAMS, order);
    assert PROGRAMS[order[1]] == PutUnless(second, first);
    ApplyNothing(one);
    assert second in map[L := 1, X := 1] && second !in one;
  }

  lemma NoOrderPutsBoth(log: seq<Done>)
    requires log == [B, A]
    ensures |PROGRAMS| == 2 && SerialRun(map[], log, PROGRAMS) != map[L := 1, X := 1]
    ensures forall order | Orders(order, 2) :: SerialIn(map[], log, PROGRAMS, order) != map[L := 1, X := 1]
  {
    InCommitOrder(map[], log, PROGRAMS, 2);
    assert log[..2] == log && PROGRAMS[..2] == PROGRAMS;
    forall order | Orders(order, 2) ensures SerialIn(map[], log, PROGRAMS, order) != map[L := 1, X := 1] {
      OnlyOnePuts(log, order);
    }
  }

  /** A database and programs whose joint result no serial order of the log can produce. */
  ghost predicate Unserializable(log: seq<Done>) {
    exists db: map<Loc, int>, effects, programs :: Effects(log, effects) && FromSnapshots(db, log, effects, programs) &&
      SerialRun(db, log, programs) != Replay(db, effects) &&
      forall order | Orders(order, |log|) :: SerialIn(db, log, programs, order) != Replay(db, effects)
  }

  lemma ReadThrough(log: seq<Done>)
    requires log == [B, A]
    ensures !Harmless(log)
  {
    assert Hits(Scan(T, 0, "", ""), L);
    assert log[1].updates && During(log[0], log[1]) && L in log[0].lost && Covered(log[1].scans, L);
  }

  /** A valid run that ends with two committed transactions whose joint result no serial
      order of them can produce. */
  lemma EmptyKeyEscapesTheCheck(msgs: seq<Msg>)
    requires msgs == RUN
    ensures ValidRun(msgs) && !Harmless(Run(msgs).log) && Unserializable(Run(msgs).log)
  {
    forall k | 0 <= k < |msgs| ensures Visits(Run(msgs[..k]).ck, msgs[k]) { VisitsAt(msgs, k); }
    Commits(msgs);
    ReadThrough(Run(msgs).log);
    BothPut(Run(msgs).log);
    NoOrderPutsBoth(Run(msgs).log);
  }
}
