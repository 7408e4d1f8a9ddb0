/** An object as one map: a list for the keys 0, 1, 2, ... and a hash map for all others.
    Where a member is kept is not to be seen: reading, setting and erasing act on one map.
 */
module SuObject {
  import opened Seal

  /** A key that is an integer, or anything else. */
  datatype Key = IntKey(n: int) | Other(id: nat)

  type Value = int

  type Members = map<Key, Value>

  datatype Outcome = Fine | ReadOnly | Sorting | TooLarge

  const OB_SIZE_LIMIT := 64_000

  // ----- the map that a list and a hash map make up ---------------------------------------

  predicate InList(list: seq<Value>, k: Key) {
    k.IntKey? && 0 <= k.n < |list|
  }

  /** `m` has the members of the list and those of the hash map. */
  ghost predicate Makes(list: seq<Value>, named: Members, m: Members) {
    var sealed := forall u: int {:trigger Open(u)} :: Open(u) ==> forall k :: MakesAt(list, named, m, k);
    sealed
  }

  predicate MakesAt(list: seq<Value>, named: Members, m: Members, k: Key) {
    && (k in m <==> InList(list, k) || k in named)
    && (k in m ==> m[k] == if InList(list, k) then list[k.n] else named[k])
  }

  lemma Made(list: seq<Value>, named: Members, m: Members, k: Key)
    ensures Makes(list, named, m) ==> MakesAt(list, named, m, k)
  {
    if Makes(list, named, m) { assert Open(0); }
  }

  /** Members that belong in the list are not among the named ones. */
  ghost predicate AlmostApart(list: seq<Value>, named: Members) {
    var sealed := forall u: int {:trigger Open(u)} :: Open(u) ==> forall i | 0 <= i < |list| :: IntKey(i) !in named;
    sealed
  }

  /** Nor is the one that would come next in the list. */
  ghost predicate Apart(list: seq<Value>, named: Members) {
    AlmostApart(list, named) && IntKey(|list|) !in named
  }

  lemma ApartAt(list: seq<Value>, named: Members, k: Key)
    ensures AlmostApart(list, named) && InList(list, k) ==> k !in named
  {
    if AlmostApart(list, named) { assert Open(0); }
  }

  /** Which list and which hash map make up a map is determined, as long as they are apart. */
  lemma OneWay(list: seq<Value>, named: Members, list': seq<Value>, named': Members, m: Members)
    requires Apart(list, named) && Apart(list', named') && Makes(list, named, m) && Makes(list', named', m)
    ensures list == list' && named == named'
  {
    NotLonger(list, named, list', named', m);
    NotLonger(list', named', list, named, m);
    forall i | 0 <= i < |list| ensures list[i] == list'[i] {
      Made(list, named, m, IntKey(i));
      Made(list', named', m, IntKey(i));
    }
    forall k ensures (k in named <==> k in named') && (k in named ==> named[k] == named'[k]) {
      Made(list, named, m, k);
      Made(list', named', m, k);
      ApartAt(list, named, k);
      ApartAt(list', named', k);
    }
  }

  lemma NotLonger(list: seq<Value>, named: Members, list': seq<Value>, named': Members, m: Members)
    requires Apart(list, named) && Apart(list', named') && Makes(list, named, m) && Makes(list', named', m)
    ensures |list| <= |list'|
  {
    Made(list, named, m, IntKey(|list'|));
    Made(list', named', m, IntKey(|list'|));
  }

  // ----- lists -----------------------------------------------------------------------------

  function Without(list: seq<Value>, i: nat): seq<Value>
    requires i < |list|
  {
    list[..i] + list[i + 1..]
  }

  function With(list: seq<Value>, i: nat, x: Value): seq<Value>
    requires i <= |list|
  {
    list[..i] + [x] + list[i..]
  }

  /** A 32 bit counter that wraps around. */
  function Next32(n: int): int {
    if n == 0x7fff_ffff then -0x8000_0000 else n + 1
  }

  /** The version has moved if and only if the sizes are different. */
  lemma VersionMoves(was: int, now: int, before: (nat, nat), after: (nat, nat))
    requires now == if before == after then was else Next32(was)
    ensures now != was <==> before != after
  {
  }

  class SuObject {
    var list: seq<Value>
    var named: Members
    var version: int
    var clock: int
    var readonly: bool
    var sorting: bool
    ghost var all: Members  // what the object is to everybody else

    ghost predicate Valid()
      reads this
    {
      Apart(list, named) && Makes(list, named, all)
    }

    constructor ()
      ensures Valid() && all == map[] && !readonly && !sorting
    {
      list, named, version, clock, readonly, sorting := [], map[], 0, 0, false, false;
      all := map[];
    }

    predicate Mutable()
      reads this
    {
      !readonly && !sorting
    }

    /** The member of that name, if there is one. */
    method GetIfPresent(key: Key) returns (found: bool, v: Value)
      requires Valid()
      ensures found == (key in all) && (found ==> v == all[key])
    {
      Made(list, named, all, key);
      if key.IntKey? && 0 <= key.n < |list| {
        return true, list[key.n];
      }
      if key in named {
        return true, named[key];
      }
      return false, 0;
    }

    method MustBeMutable() returns (r: Outcome)
      ensures r == if readonly then ReadOnly else if sorting then Sorting else Fine
    {
      if readonly {
        return ReadOnly;
      }
      if sorting {
        return Sorting;
      }
      r := Fine;
    }

    method StartMutate() returns (r: Outcome, sizes: (nat, nat))
      modifies this`clock
      ensures r == (if readonly then ReadOnly else if sorting then Sorting else Fine)
      ensures sizes == (|list|, |named|)
      ensures r != Fine ==> clock == old(clock)
    {
      sizes := (|list|, |named|);
      r := MustBeMutable();
      if r == Fine { clock := Next32(clock); }
    }

    /** Advances the version if the sizes have changed. */
    method EndMutate(sizes: (nat, nat))
      modifies this`version
      ensures version == if sizes == (|list|, |named|) then old(version) else Next32(old(version))
    {
      if sizes != (|list|, |named|) {
        version := Next32(version);
      }
    }

    method CkSize() returns (r: Outcome)
      ensures r == if |list| + |named| > OB_SIZE_LIMIT then TooLarge else Fine
    {
      r := if |list| + |named| > OB_SIZE_LIMIT then TooLarge else Fine;
    }

    /** Moves the named members that now follow the list into it. No member changes. */
    method Migrate() returns (r: Outcome)
      requires AlmostApart(list, named) && Makes(list, named, all)
      modifies this`list, this`named
      ensures Valid()
      ensures old(list) <= list && |list| + |named| == |old(list)| + |old(named)|
      ensures old(IntKey(|list|) !in named) ==> list == old(list) && named == old(named)
      ensures r == if |list| + |named| > OB_SIZE_LIMIT then TooLarge else Fine
    {
      while IntKey(|list|) in named
        invariant old(IntKey(|list|) !in named) ==> list == old(list) && named == old(named)
        invariant AlmostApart(list, named) && Makes(list, named, all)
        invariant old(list) <= list && |list| + |named| == |old(list)| + |old(named)|
        decreases |named|
      {
        MoveOne(list, named, all);
        var x := named[IntKey(|list|)];
        named := named - {IntKey(|list|)};
        list := list + [x];
      }
      r := CkSize();
    }

    /** Appends to the list. */
    method Add(val: Value) returns (r: Outcome)
      requires Valid()
      modifies this`list, this`named, this`all, this`version, this`clock
      ensures Valid() && (r == Fine || r == TooLarge <==> Mutable())
      ensures Mutable() ==> all == old(all)[IntKey(|old(list)|) := val] && old(list) + [val] <= list
      ensures Mutable() ==> version == Next32(old(version)) && (|list|, |named|) != (|old(list)|, |old(named)|)
      ensures !Mutable() ==> list == old(list) && named == old(named) && version == old(version)
      ensures r == TooLarge ==> |list| + |named| > OB_SIZE_LIMIT
    {
      r := MustBeMutable();
      if r != Fine {
        return;
      }
      clock := Next32(clock);
      version := Next32(version);
      AppendOne(list, named, all, val);
      all := all[IntKey(|list|) := val];
      list := list + [val];
      r := Migrate();
    }

    /** Sets one member and leaves all others as they are. */
    method Set(key: Key, val: Value) returns (r: Outcome)
      requires Valid()
      modifies this`list, this`named, this`all, this`version, this`clock
      ensures Valid() && (r == Fine || r == TooLarge <==> Mutable())
      ensures all == if Mutable() then old(all)[key := val] else old(all)
      ensures Mutable() && key !in old(all) ==> version == Next32(old(version)) || version == Next32(Next32(old(version)))
      ensures !(Mutable() && key !in old(all)) ==> version == old(version)
      ensures (|list|, |named|) != (|old(list)|, |old(named)|) <==> Mutable() && key !in old(all)
      ensures r == TooLarge ==> |list| + |named| > OB_SIZE_LIMIT
    {
      var sizes;
      r, sizes := StartMutate();
      if r != Fine {
        return;
      }
      Made(list, named, all, key);
      if key.IntKey? && key.n == |list| {
        r := Add(val);
      } else if key.IntKey? && 0 <= key.n < |list| {
        UpdateOne(list, named, all, key.n, val);
        all := all[key := val];
        list := list[key.n := val];
      } else {
        PutNamed(list, named, all, key, val);
        all := all[key := val];
        named := named[key := val];
        r := CkSize();
      }
      EndMutate(sizes);
    }

    /** Removes one member; list members after it are not shifted over but become named ones. */
    method Erase(key: Key) returns (r: Outcome, found: bool)
      requires Valid()
      modifies this`list, this`named, this`all, this`version, this`clock
      ensures Valid() && (r == Fine <==> Mutable())
      ensures found == (Mutable() && key in old(all))
      ensures Mutable() ==> all == old(all) - {key}
      ensures !Mutable() ==> all == old(all)
      ensures version != old(version) <==> found
    {
      var sizes;
      found := false;
      r, sizes := StartMutate();
      if r != Fine {
        return;
      }
      found := EraseAndCount(key, sizes);
    }

    method EraseAndCount(key: Key, sizes: (nat, nat)) returns (found: bool)
      requires Valid() && sizes == (|list|, |named|)
      modifies this`list, this`named, this`all, this`version
      ensures Valid() && found == (key in old(all)) && all == old(all) - {key}
      ensures version != old(version) <==> found
    {
      found := EraseMember(key);
      EndMutate(sizes);
      VersionMoves(old(version), version, sizes, (|list|, |named|));
    }

    method EraseMember(key: Key) returns (found: bool)
      requires Valid()
      modifies this`list, this`named, this`all
      ensures Valid() && found == (key in old(all)) && all == old(all) - {key}
      ensures (|list|, |named|) != (|old(list)|, |old(named)|) <==> found
    {
      Made(list, named, all, key);
      if key.IntKey? && 0 <= key.n < |list| {
        EraseFromList(key.n);
        found := true;
      } else {
        found := DeleteNamed(key);
      }
    }

    method EraseFromList(i: nat)
      requires Valid() && i < |list|
      modifies this`list, this`named, this`all
      ensures Valid() && all == old(all) - {IntKey(i)} && |list| == i
    {
      Spill(i);
      DropLast(list[..i + 1], named, all);
      assert list[..i + 1][..i] == list[..i];
      all := all - {IntKey(i)};
      list := list[..i];
    }

    method DeleteNamed(key: Key) returns (found: bool)
      requires Valid() && !InList(list, key)
      modifies this`named, this`all
      ensures Valid() && found == (key in old(all)) && all == old(all) - {key} && (!found ==> all == old(all))
      ensures |named| == |old(named)| - if found then 1 else 0
    {
      RemoveNamed(list, named, all, key);
      found := key in named;
      named := named - {key};
      all := all - {key};
    }

    /** Makes the list members after i named ones. */
    method Spill(i: nat)
      requires Valid() && i < |list|
      modifies this`named
      ensures AlmostApart(list[..i + 1], named) && Makes(list[..i + 1], named, all)
    {
      var j := |list| - 1;
      assert list[..j + 1] == list;
      while j > i
        invariant i <= j < |list| && AlmostApart(list[..j + 1], named) && Makes(list[..j + 1], named, all)
      {
        SpillOne(list[..j + 1], named, all);
        assert list[..j + 1][..j] == list[..j];
        named := named[IntKey(j) := list[j]];
        j := j - 1;
      }
    }

    /** Removes one member; list members after it are shifted over. */
    method Delete(key: Key) returns (r: Outcome, found: bool)
      requires Valid()
      modifies this`list, this`named, this`all, this`version, this`clock
      ensures Valid() && (r == Fine <==> Mutable())
      ensures found == (Mutable() && key in old(all))
      ensures InList(old(list), key) && Mutable() ==> list == Without(old(list), key.n) && named == old(named)
      ensures !InList(old(list), key) && Mutable() ==> all == old(all) - {key}
      ensures version != old(version) <==> found
      ensures !found ==> all == old(all)
    {
      var sizes;
      found := false;
      r, sizes := StartMutate();
      if r != Fine {
        return;
      }
      found := DeleteMember(key);
      EndMutate(sizes);
      VersionMoves(old(version), version, sizes, (|list|, |named|));
    }

    method DeleteMember(key: Key) returns (found: bool)
      requires Valid()
      modifies this`list, this`named, this`all
      ensures Valid() && found == (key in old(all)) && (!found ==> all == old(all))
      ensures InList(old(list), key) ==> list == Without(old(list), key.n) && named == old(named)
      ensures !InList(old(list), key) ==> all == old(all) - {key}
      ensures (|list|, |named|) != (|old(list)|, |old(named)|) <==> found
    {
      Made(list, named, all, key);
      if key.IntKey? && 0 <= key.n < |list| {
        Fewer(list, named, Without(list, key.n));
        list := Without(list, key.n);
        all := MakeAll(list, named);
        found := true;
      } else {
        found := DeleteNamed(key);
      }
    }

    /** Inserts into the list, moving what follows, or sets the member if it is not in the list. */
    method Insert(at: int, val: Value) returns (r: Outcome)
      requires Valid()
      modifies this`list, this`named, this`all, this`version, this`clock
      ensures Valid() && (r == Fine || r == TooLarge <==> Mutable())
      ensures Mutable() && 0 <= at <= |old(list)| ==> Makes(With(old(list), at, val), old(named), all)
      ensures Mutable() && !(0 <= at <= |old(list)|) ==> all == old(all)[IntKey(at) := val]
      ensures !Mutable() ==> all == old(all)
      ensures version != old(version) <==> Mutable() && (0 <= at <= |old(list)| || IntKey(at) !in old(all))
    {
      var sizes;
      r, sizes := StartMutate();
      if r != Fine {
        return;
      }
      if 0 <= at <= |list| {
        r := InsertInList(at, val);
      } else {
        r := Set(IntKey(at), val);
        if r == Fine { r := Migrate(); }
      }
      EndMutate(sizes);
    }

    method InsertInList(at: nat, val: Value) returns (r: Outcome)
      requires Valid() && at <= |list|
      modifies this`list, this`named, this`all
      ensures Valid() && (r == Fine || r == TooLarge)
      ensures Makes(With(old(list), at, val), old(named), all) && |list| > |old(list)|
    {
      OneMore(list, named, With(list, at, val));
      list := With(list, at, val);
      all := MakeAll(list, named);
      r := Migrate();
    }
  }

  // ----- steps on the two parts and on the whole ------------------------------------------------

  lemma MakeAll(list: seq<Value>, named: Members) returns (m: Members)
    ensures Makes(list, named, m)
  {
    m := map k | k in (set i | 0 <= i < |list| :: IntKey(i)) + named.Keys :: if InList(list, k) then list[k.n] else named[k];
    forall k ensures MakesAt(list, named, m, k) {
      if InList(list, k) { assert k == IntKey(k.n); }
    }
  }

  lemma MoveOne(list: seq<Value>, named: Members, m: Members)
    requires AlmostApart(list, named) && IntKey(|list|) in named && Makes(list, named, m)
    ensures var k := IntKey(|list|);
      AlmostApart(list + [named[k]], named - {k}) && Makes(list + [named[k]], named - {k}, m) && |named - {k}| == |named| - 1
  {
    assert Open(0);
    var k := IntKey(|list|);
    var l, d := list + [named[k]], named - {k};
    forall x ensures MakesAt(l, d, m, x) { assert MakesAt(list, named, m, x); }
    SizeWithout(named, k);
  }

  lemma AppendOne(list: seq<Value>, named: Members, m: Members, val: Value)
    requires Apart(list, named) && Makes(list, named, m)
    ensures AlmostApart(list + [val], named) && Makes(list + [val], named, m[IntKey(|list|) := val]) && IntKey(|list|) !in m
  {
    assert Open(0);
    assert MakesAt(list, named, m, IntKey(|list|));
    var l, a := list + [val], m[IntKey(|list|) := val];
    forall x ensures MakesAt(l, named, a, x) { assert MakesAt(list, named, m, x); }
  }

  lemma UpdateOne(list: seq<Value>, named: Members, m: Members, i: nat, val: Value)
    requires Apart(list, named) && Makes(list, named, m) && i < |list|
    ensures Apart(list[i := val], named) && Makes(list[i := val], named, m[IntKey(i) := val])
  {
    assert Open(0);
    var l, a := list[i := val], m[IntKey(i) := val];
    forall x ensures MakesAt(l, named, a, x) { assert MakesAt(list, named, m, x); }
  }

  lemma PutNamed(list: seq<Value>, named: Members, m: Members, key: Key, val: Value)
    requires Apart(list, named) && Makes(list, named, m) && !(key.IntKey? && 0 <= key.n <= |list|)
    ensures Apart(list, named[key := val]) && Makes(list, named[key := val], m[key := val])
    ensures |named[key := val]| == |named| + if key in m then 0 else 1
  {
    assert Open(0);
    var d, a := named[key := val], m[key := val];
    forall x ensures MakesAt(list, d, a, x) { assert MakesAt(list, named, m, x); }
    assert MakesAt(list, named, m, key);
    SizeWith(named, key, val);
  }

  lemma RemoveNamed(list: seq<Value>, named: Members, m: Members, key: Key)
    requires Apart(list, named) && Makes(list, named, m) && !InList(list, key)
    ensures Apart(list, named - {key}) && Makes(list, named - {key}, m - {key})
    ensures |named - {key}| == |named| - (if key in m then 1 else 0) && (key in m <==> key in named)
    ensures key !in m ==> m - {key} == m
  {
    assert Open(0);
    var d, a := named - {key}, m - {key};
    forall x ensures MakesAt(list, d, a, x) { assert MakesAt(list, named, m, x); }
    if key !in m { assert m - {key} == m; }
    assert MakesAt(list, named, m, key);
    SizeWithout(named, key);
  }

  lemma SizeWithout<K, V>(m: map<K, V>, k: K)
    ensures |m - {k}| == |m| - if k in m then 1 else 0
  {
    if k in m { assert m.Keys == (m - {k}).Keys + {k}; } else { assert m - {k} == m; }
  }

  lemma SizeWith<K, V>(m: map<K, V>, k: K, v: V)
    ensures |m[k := v]| == |m| + if k in m then 0 else 1
  {
    assert m[k := v].Keys == m.Keys + {k};
  }

  lemma SpillOne(list: seq<Value>, named: Members, m: Members)
    requires AlmostApart(list, named) && Makes(list, named, m) && |list| > 0
    ensures var n := |list| - 1;
      AlmostApart(list[..n], named[IntKey(n) := list[n]]) && Makes(list[..n], named[IntKey(n) := list[n]], m)
  {
    assert Open(0);
    var n := |list| - 1;
    var l, d := list[..n], named[IntKey(n) := list[n]];
    forall x ensures MakesAt(l, d, m, x) { assert MakesAt(list, named, m, x); }
  }

  lemma DropLast(list: seq<Value>, named: Members, m: Members)
    requires AlmostApart(list, named) && Makes(list, named, m) && |list| > 0
    ensures var n := |list| - 1; Apart(list[..n], named) && Makes(list[..n], named, m - {IntKey(n)})
  {
    assert Open(0);
    var n := |list| - 1;
    var l, a := list[..n], m - {IntKey(n)};
    forall x ensures MakesAt(l, named, a, x) { assert MakesAt(list, named, m, x); }
  }

  lemma Fewer(list: seq<Value>, named: Members, list': seq<Value>)
    requires Apart(list, named) && |list'| == |list| - 1
    ensures Apart(list', named)
  {
    assert Open(0);
  }

  lemma OneMore(list: seq<Value>, named: Members, list': seq<Value>)
    requires Apart(list, named) && |list'| == |list| + 1
    ensures AlmostApart(list', named)
  {
    assert Open(0);
  }
}
