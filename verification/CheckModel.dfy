/** The value-level model of the transaction conflict checker: the state of `Check`
    as an immutable value and one function per message. Random choices of the
    program (the coin in abort1of, the order in which Go visits a map, whether the
    bounded btrees still have room) are arguments collected in an `Oracle`.
 */
module CheckModel {

  type Id = int      // a transaction is identified by its start time
  type Key = string  // an encoded index key

  /** Times are values of the checker's sequence counter; Never stands for math.MaxInt. */
  datatype Time = At(n: int) | Never

  predicate Before(a: Time, b: Time) {
    a.At? && (b.Never? || a.n < b.n)
  }

  // ----- keys and ranges ---------------------------------------------------

  /** Byte-wise (lexicographic) comparison, as Go compares strings. */
  predicate Le(a: Key, b: Key) {
    if a == [] then true
    else if b == [] then false
    else if a[0] != b[0] then a[0] < b[0]
    else Le(a[1..], b[1..])
  }

  predicate InRange(k: Key, from: Key, to: Key) {
    Le(from, k) && Le(k, to)
  }

  /** The actions of one transaction on one table, one element per index.
      An empty sequence stands for a nil slice. */
  datatype Acts = Acts(outputs: seq<set<Key>>, deletes: seq<set<Key>>, scans: seq<set<(Key, Key)>>)

  const NO_ACTS := Acts([], [], [])

  function Nth<T>(w: seq<set<T>>, i: nat): set<T> {
    if i < |w| then w[i] else {}
  }

  function Max(a: nat, b: nat): nat {
    if a < b then b else a
  }

  predicate AnyInRange(w: seq<set<Key>>, ix: nat, from: Key, to: Key) {
    exists k | k in Nth(w, ix) :: InRange(k, from, to)
  }

  predicate Contains(r: seq<set<(Key, Key)>>, ix: nat, key: Key) {
    exists p | p in Nth(r, ix) :: InRange(key, p.0, p.1)
  }

  /** Some key is inside the ranges read on the index it belongs to. */
  predicate AnyRead(r: seq<set<(Key, Key)>>, keys: seq<Key>) {
    exists i: nat | i < |keys| :: Contains(r, i, keys[i])
  }

  /** What ordset.Set.Insert leaves in the set: the empty key is taken to be present
      already when the set is empty, because an unused slot holds "". */
  function InsertKey(s: set<Key>, k: Key): set<Key> {
    if k == "" && s == {} then s else s + {k}
  }

  function SaveKeys(w: seq<set<Key>>, keys: seq<Key>): seq<set<Key>> {
    seq(Max(|w|, |keys|), (i: nat) => if i < |keys| then InsertKey(Nth(w, i), keys[i]) else Nth(w, i))
  }

  function SaveRange(r: seq<set<(Key, Key)>>, ix: nat, from: Key, to: Key): seq<set<(Key, Key)>> {
    seq(Max(|r|, ix + 1), (i: nat) => if i == ix then Nth(r, i) + {(from, to)} else Nth(r, i))
  }

  // ----- state -------------------------------------------------------------

  datatype Tran = Tran(end: Time, birth: int, readCount: int, hasUpdates: bool, readConflict: string)

  datatype State = State(
    actv: map<Id, Tran>,              // active transactions
    cmtd: map<Id, Tran>,              // committed transactions that are still remembered
    acts: map<(string, Id), Acts>,    // actions by table and transaction
    excl: map<string, Time>,          // tables under (or recently under) exclusive access
    seqno: int,                       // the sequence counter
    oldest: Time,                     // start of the oldest active transaction, or Never if unknown
    clock: int)

  const READ_MAX := 20000
  const MAX_AGE := 20

  const INITIAL := State(map[], map[], map[], map[], 1, Never, 0)

  function ActsOf(s: State, table: string, id: Id): Acts {
    if (table, id) in s.acts then s.acts[(table, id)] else NO_ACTS
  }

  // ----- ending transactions -----------------------------------------------

  function RemoveByTable(s: State, id: Id): State {
    s.(acts := map p | p in s.acts && p.1 != id :: s.acts[p])
  }

  ghost function Pick<T>(s: set<T>): (x: T)
    requires s != {}
    ensures x in s
  {
    var x :| x in s; x
  }

  ghost function SetMin(s: set<int>): (m: int)
    requires s != {}
    ensures m in s && forall x | x in s :: m <= x
  {
    var x := Pick(s);
    if s == {x} then x
    else
      var rest := s - {x};
      assert s == {x} + rest;
      var y := SetMin(rest);
      if x < y then x else y
  }

  ghost function OldestStart(actv: map<Id, Tran>): (o: Time)
    ensures forall k | k in actv :: o.At? && o.n <= k
    ensures o.At? ==> o.n in actv
  {
    if actv.Keys == {} then Never else At(SetMin(actv.Keys))
  }

  /** `prune` is false for an imaginary checker that never forgets anything. */
  ghost function CleanEnded(s: State, prune: bool): State {
    var o := if s.oldest.Never? then OldestStart(s.actv) else s.oldest;
    if !prune then s.(oldest := o)
    else s.(
      oldest := o,
      cmtd := map k | k in s.cmtd && !Before(s.cmtd[k].end, o) :: s.cmtd[k],
      acts := map p | p in s.acts && !(p.1 in s.cmtd && Before(s.cmtd[p.1].end, o)) :: s.acts[p],
      excl := map t | t in s.excl && !Before(s.excl[t], o) :: s.excl[t])
  }

  ghost function Abort(s: State, id: Id, prune: bool): State {
    if id !in s.actv then s
    else
      var s1 := RemoveByTable(s, id).(actv := s.actv - {id});
      if s.oldest == At(id) || s.oldest.Never? then CleanEnded(s1.(oldest := Never), prune) else s1
  }

  /** The state of Commit just before its clean-up. */
  ghost function Committed(s: State, id: Id): State
    requires id in s.actv
  {
    var t := s.actv[id];
    var n := s.seqno + 2;
    var s1 := s.(seqno := n, actv := s.actv - {id},
                 oldest := if s.oldest == At(id) then Never else s.oldest);
    if t.hasUpdates
    then s1.(cmtd := s.cmtd[id := t.(end := At(n))],
             acts := map p | p in s.acts ::
               if p.1 == id then s.acts[p].(scans := []) else s.acts[p])
    else RemoveByTable(s1, id)
  }

  ghost function Commit(s: State, id: Id, prune: bool): State {
    if id !in s.actv then s
    else if Committed(s, id).oldest.Never? then CleanEnded(Committed(s, id), prune)
    else Committed(s, id)
  }

  // ----- conflicts ---------------------------------------------------------

  datatype Kind = Output | Delete | Update

  /** A write carries its old and its new keys, one per index. */
  datatype Action =
    | Read(ix: nat, from: Key, to: Key)
    | Write(kind: Kind, deletes: seq<Key>, outputs: seq<Key>)

  /** The choices the program does not determine: the order in which a map is visited,
      the transactions against which the coin falls on aborting the acting one,
      the change in the number of tracked ranges, and whether the write sets have room. */
  datatype Oracle = Oracle(order: seq<Id>, heads: set<Id>, inc: int, room: bool)

  predicate Known(s: State, id: Id) {
    id in s.actv || id in s.cmtd
  }

  function TranOf(s: State, id: Id): Tran
    requires Known(s, id)
  {
    if id in s.actv then s.actv[id] else s.cmtd[id]
  }

  predicate Overlap(s: State, t: Id, u: Id)
    requires Known(s, t) && Known(s, u)
  {
    Before(At(u), TranOf(s, t).end) && Before(At(t), TranOf(s, u).end)
  }

  predicate Clashes(a: Action, other: Acts, ended: bool) {
    match a
    case Read(ix, from, to) =>
      AnyInRange(other.outputs, ix, from, to) || AnyInRange(other.deletes, ix, from, to)
    case Write(_, deletes, outputs) =>
      !ended && (AnyRead(other.scans, deletes) || AnyRead(other.scans, outputs))
  }

  /** `u` is visited and found to conflict with action `a` of `t` on `table`. */
  predicate Conflict(s: State, t: Id, table: string, a: Action, u: Id)
    requires t in s.actv
  {
    && u != t && Known(s, u) && Overlap(s, t, u)
    && Clashes(a, ActsOf(s, table, u), TranOf(s, u).end.At?)
  }

  function ActName(a: Action, other: Acts): string {
    match a
    case Read(_, _, _) => "read"
    case Write(Output, _, _) => "output"
    case Write(Delete, _, _) => "delete"
    case Write(Update, deletes, _) => if AnyRead(other.scans, deletes) then "delete" else "update"
  }

  function OtherName(a: Action): string {
    if a.Read? then "write" else "read"
  }

  function Message(act1: string, act2: string, table: string): (m: string)
    ensures m != ""
  {
    act1 + " in this transaction conflicted with " + act2 + " in another transaction (" + table + ")"
  }

  function SetConflict(s: State, id: Id, why: string): State
    requires id in s.actv
  {
    s.(actv := s.actv[id := s.actv[id].(readConflict := why)])
  }

  ghost function Abort1Of(s: State, t1: Id, t2: Id, act1: string, act2: string, table: string,
                          head: bool, prune: bool): State
    requires t1 in s.actv && Known(s, t2)
  {
    if !s.actv[t1].hasUpdates then SetConflict(s, t1, Message(act1, act2, table))
    else if !TranOf(s, t2).hasUpdates then
      if t2 in s.actv then SetConflict(s, t2, Message(act2, act1, table)) else s
    else if TranOf(s, t2).end.At? || head then Abort(s, t1, prune)
    else Abort(s, t2, prune)
  }

  /** One iteration of the loop that checks an action against another transaction. */
  ghost function Visit(s: State, t: Id, table: string, a: Action, u: Id, head: bool, prune: bool): State
    requires t in s.actv
  {
    if Conflict(s, t, table, a, u)
    then Abort1Of(s, t, u, ActName(a, ActsOf(s, table, u)), OtherName(a), table, head, prune)
    else s
  }

  /** The whole loop; it stops when the acting transaction has been aborted. */
  ghost function CheckAll(s: State, t: Id, table: string, a: Action, order: seq<Id>, heads: set<Id>,
                          prune: bool): State
    decreases order
  {
    if order == [] || t !in s.actv then s
    else CheckAll(Visit(s, t, table, a, order[0], order[0] in heads, prune),
                  t, table, a, order[1..], heads, prune)
  }

  function PutActs(s: State, t: Id, table: string, acts: Acts): State {
    s.(acts := s.acts[(table, t) := acts])
  }

  /** `s` with the entry of `t` for the table in place and its read count replaced. */
  function Counted(s: State, t: Id, table: string, n: int): State
    requires t in s.actv
  {
    PutActs(s, t, table, ActsOf(s, table, t)).(actv := s.actv[t := s.actv[t].(readCount := n)])
  }

  function AddScan(acts: Acts, ix: nat, from: Key, to: Key): Acts {
    acts.(scans := SaveRange(acts.scans, ix, from, to))
  }

  function AddKeys(acts: Acts, deletes: seq<Key>, outputs: seq<Key>): Acts {
    acts.(deletes := SaveKeys(acts.deletes, deletes), outputs := SaveKeys(acts.outputs, outputs))
  }

  ghost function SaveRead(s: State, t: Id, table: string, ix: nat, from: Key, to: Key, inc: int,
                          prune: bool): State
    requires t in s.actv
  {
    if s.actv[t].readCount + inc >= READ_MAX
    then Abort(Counted(s, t, table, s.actv[t].readCount + inc), t, prune)
    else PutActs(Counted(s, t, table, s.actv[t].readCount + inc), t, table, AddScan(ActsOf(s, table, t), ix, from, to))
  }

  ghost function SaveWrite(s: State, t: Id, table: string, deletes: seq<Key>, outputs: seq<Key>,
                           room: bool, prune: bool): State
    requires t in s.actv
  {
    if !room then Abort(s, t, prune)
    else PutActs(s, t, table, AddKeys(ActsOf(s, table, t), deletes, outputs))
  }

  predicate Excluded(s: State, t: Id, table: string) {
    table in s.excl && Before(At(t), s.excl[table])
  }

  function MarkUpdates(s: State, t: Id): State
    requires t in s.actv
  {
    s.(actv := s.actv[t := s.actv[t].(hasUpdates := true)])
  }

  ghost function Save(s: State, t: Id, table: string, a: Action, o: Oracle, prune: bool): State
    requires t in s.actv
  {
    match a
    case Read(ix, from, to) => SaveRead(s, t, table, ix, from, to, o.inc, prune)
    case Write(_, deletes, outputs) => SaveWrite(s, t, table, deletes, outputs, o.room, prune)
  }

  /** Check an action against the other transactions and, if `t` survives, record it. */
  ghost function Checked(s: State, t: Id, table: string, a: Action, o: Oracle, prune: bool): State {
    var s1 := CheckAll(s, t, table, a, o.order, o.heads, prune);
    if t !in s1.actv then s1 else Save(s1, t, table, a, o, prune)
  }

  ghost function DoRead(s: State, t: Id, table: string, a: Action, o: Oracle, prune: bool): State {
    if t !in s.actv || s.actv[t].readConflict != "" then s
    else Checked(s, t, table, a, o, prune)
  }

  ghost function DoWrite(s: State, t: Id, table: string, a: Action, o: Oracle, prune: bool): State {
    if t !in s.actv then s
    else if s.actv[t].readConflict != "" && !s.actv[t].hasUpdates then Abort(s, t, prune)
    else if Excluded(s, t, table) then Abort(MarkUpdates(s, t), t, prune)
    else Checked(MarkUpdates(s, t), t, table, a, o, prune)
  }

  ghost function DoAct(s: State, t: Id, table: string, a: Action, o: Oracle, prune: bool): State {
    if a.Read? then DoRead(s, t, table, a, o, prune) else DoWrite(s, t, table, a, o, prune)
  }

  // ----- the other messages -------------------------------------------------

  function StartTran(s: State): State {
    var n := s.seqno + 2;
    s.(seqno := n, actv := s.actv[n := Tran(Never, s.clock, 0, false, "")])
  }

  predicate Wrote(acts: Acts) {
    acts.outputs != [] || acts.deletes != []
  }

  /** Aborts the writers of `table` among `order`. */
  ghost function AbortWriters(s: State, table: string, order: seq<Id>, prune: bool): State
    decreases order
  {
    if order == [] then s
    else
      var s1 := if Wrote(ActsOf(s, table, order[0])) then Abort(s, order[0], prune) else s;
      AbortWriters(s1, table, order[1..], prune)
  }

  predicate Exclusive(s: State, table: string) {
    table in s.excl && s.excl[table].Never?
  }

  ghost function AddExclusive(s: State, table: string, order: seq<Id>, prune: bool): State {
    if Exclusive(s, table) then s
    else
      var s1 := AbortWriters(s, table, order, prune);
      s1.(excl := s1.excl[table := Never])
  }

  function Released(s: State, table: string): State {
    s.(seqno := s.seqno + 2, excl := s.excl[table := At(s.seqno + 2)])
  }

  ghost function EndExclusive(s: State, table: string, prune: bool): State {
    if Exclusive(s, table) then CleanEnded(Released(s, table), prune) else s
  }

  ghost function AbortAged(s: State, order: seq<Id>, prune: bool): State
    decreases order
  {
    if order == [] then s
    else
      var t := order[0];
      var s1 := if t in s.actv && s.clock - s.actv[t].birth >= MAX_AGE then Abort(s, t, prune) else s;
      AbortAged(s1, order[1..], prune)
  }

  ghost function Tick(s: State, order: seq<Id>, prune: bool): State {
    AbortAged(s.(clock := s.clock + 1), order, prune)
  }

  // ----- messages and steps ---------------------------------------------------

  datatype Msg =
    | MStart
    | MAct(t: Id, table: string, a: Action, o: Oracle)
    | MCommit(t: Id)
    | MAbort(t: Id)
    | MAddExclusive(table: string, order: seq<Id>)
    | MEndExclusive(table: string)
    | MTick(order: seq<Id>)

  ghost function Step(s: State, m: Msg, prune: bool): State {
    match m
    case MStart => StartTran(s)
    case MAct(t, table, a, o) => DoAct(s, t, table, a, o, prune)
    case MCommit(t) => Commit(s, t, prune)
    case MAbort(t) => Abort(s, t, prune)
    case MAddExclusive(table, order) => AddExclusive(s, table, order, prune)
    case MEndExclusive(table) => EndExclusive(s, table, prune)
    case MTick(order) => Tick(s, order, prune)
  }

  /** The visiting order of a message reaches every entry of the map it walks. */
  ghost predicate Visits(s: State, m: Msg) {
    match m
    case MAct(_, table, _, o) => forall u | (table, u) in s.acts :: u in o.order
    case MAddExclusive(table, order) => forall u | (table, u) in s.acts :: u in order
    case MTick(order) => forall u | u in s.actv :: u in order
    case _ => true
  }
}
