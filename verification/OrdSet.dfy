/** ordset.Set, the ordered set of keys in which the checker records writes: a two-level
    btree with leaves of fixed size. Insert adds the key to the set, except that an empty
    key does not get into an empty set.
 */
module OrdSet {
  import opened CheckModel

  const NODE_SIZE: nat := 128

  // ----- the order of keys ----------------------------------------------------------

  predicate Lt(a: Key, b: Key) {
    !Le(b, a)
  }

  lemma LeTotal(a: Key, b: Key)
    ensures Le(a, b) || Le(b, a)
  {
    if a != [] && b != [] && a[0] == b[0] { LeTotal(a[1..], b[1..]); }
  }

  lemma LeAntisymmetric(a: Key, b: Key)
    requires Le(a, b) && Le(b, a)
    ensures a == b
  {
    if a != [] && b != [] {
      LeAntisymmetric(a[1..], b[1..]);
      assert a == [a[0]] + a[1..] && b == [b[0]] + b[1..];
    }
  }

  lemma {:induction false} LeTransitive(a: Key, b: Key, c: Key)
    requires Le(a, b) && Le(b, c)
    ensures Le(a, c)
  {
    if a != [] && a[0] == c[0] { LeTransitive(a[1..], b[1..], c[1..]); }
  }

  lemma LtLe(a: Key, b: Key, c: Key)
    ensures Lt(a, b) && Le(b, c) ==> Lt(a, c)
    ensures Le(a, b) && Lt(b, c) ==> Lt(a, c)
    ensures Lt(a, b) ==> Le(a, b) && a != b
    ensures a != b ==> Lt(a, b) || Lt(b, a)
  {
    LeTotal(a, b);
    LeTotal(b, c);
    LeReflexive(a);
    if Le(a, b) && Le(b, a) { LeAntisymmetric(a, b); }
    if Lt(a, b) && Le(b, c) && Le(c, a) { LeTransitive(b, c, a); }
    if Le(a, b) && Lt(b, c) && Le(c, a) { LeTransitive(c, a, b); }
  }

  lemma LeReflexive(a: Key)
    ensures Le(a, a)
  {
  }

  ghost predicate Sorted(s: seq<Key>) {
    forall i, j | 0 <= i < j < |s| :: Lt(s[i], s[j])
  }

  ghost function SetOf(s: seq<Key>): set<Key> {
    set k | k in s
  }

  // ----- leaves ----------------------------------------------------------------------

  /** A leaf has a fixed number of slots, of which the first `size` are in use. */
  datatype Leaf = Leaf(slots: seq<Key>, size: nat) {
    ghost predicate Valid() {
      |slots| == NODE_SIZE && size <= NODE_SIZE && Sorted(slots[..size])
    }

    ghost function Keys(): set<Key> {
      if size <= |slots| then SetOf(slots[..size]) else {}
    }
  }

  const EMPTY_LEAF := Leaf(seq(NODE_SIZE, _ => ""), 0)

  /** The index of the first of the first `n` items that is not below the key. */
  method SearchLeaf(slots: seq<Key>, n: nat, key: Key) returns (i: nat)
    requires n <= |slots| && Sorted(slots[..n])
    ensures i <= n
    ensures forall j | 0 <= j < i :: Lt(slots[j], key)
    ensures forall j | i <= j < n :: Le(key, slots[j])
  {
    i := 0;
    var j := n;
    while i < j
      invariant i <= j <= n
      invariant forall k | 0 <= k < i :: Lt(slots[k], key)
      invariant forall k | j <= k < n :: Le(key, slots[k])
    {
      var h := (i + j) / 2;
      if Lt(slots[h], key) {
        forall k | 0 <= k <= h ensures Lt(slots[k], key) {
          if k < h { assert Lt(slots[..n][k], slots[..n][h]); LtLe(slots[k], slots[h], key); }
        }
        i := h + 1;
      } else {
        forall k | h <= k < n ensures Le(key, slots[k]) {
          if h < k {
            assert Lt(slots[..n][h], slots[..n][k]);
            LtLe(slots[h], slots[k], key);
            LeTransitive(key, slots[h], slots[k]);
          }
        }
        j := h;
      }
    }
  }

  /** Puts the key in its place, unless the slot at that place holds it already: the slot is
      looked at even when it is not in use. */
  method InsertLeaf(leaf: Leaf, key: Key) returns (r: Leaf, ok: bool)
    requires leaf.Valid()
    ensures r.Valid()
    ensures ok == (leaf.size < NODE_SIZE)
    ensures !ok ==> r == leaf
    ensures leaf.size == 0 && leaf.slots[0] == key ==> r == leaf
    ensures ok && r.size == leaf.size ==> r == leaf && (key in leaf.Keys() || key == leaf.slots[leaf.size])
    ensures ok && r.size == leaf.size ==> key !in leaf.Keys() ==> forall k | k in leaf.Keys() :: Lt(k, key)
    ensures ok && r.size != leaf.size ==> r.size == leaf.size + 1 && r.Keys() == leaf.Keys() + {key}
    ensures ok && r.size != leaf.size && r.size < NODE_SIZE ==> r.slots[r.size] == leaf.slots[leaf.size]
  {
    if leaf.size >= NODE_SIZE {
      return leaf, false;
    }
    var s, n := leaf.slots, leaf.size;
    var i := SearchLeaf(s, n, key);
    if s[i] == key {
      if i < n {
        assert s[..n][i] == key;
      } else {
        forall k | k in leaf.Keys() ensures Lt(k, key) {
          var j :| 0 <= j < n && s[..n][j] == k;
        }
      }
      return leaf, true;
    }
    r := Leaf(s[..i] + [key] + s[i..NODE_SIZE - 1], n + 1);
    ok := true;
    InsertedSorted(s, n, i, key, r.slots);
    InsertedKeys(s, n, i, key, r.slots);
  }

  lemma InsertedSorted(s: seq<Key>, n: nat, i: nat, key: Key, r: seq<Key>)
    requires |s| == NODE_SIZE && i <= n < NODE_SIZE && Sorted(s[..n]) && s[i] != key
    requires forall j | 0 <= j < i :: Lt(s[j], key)
    requires forall j | i <= j < n :: Le(key, s[j])
    requires r == s[..i] + [key] + s[i..NODE_SIZE - 1]
    ensures Sorted(r[..n + 1])
  {
    forall a, b | 0 <= a < b < n + 1 ensures Lt(r[a], r[b]) {
      var a' := if a < i then a else a - 1;
      var b' := if b < i then b else b - 1;
      if a != i && b != i {
        assert Lt(s[..n][a'], s[..n][b']);
      } else if a == i {
        LtLe(key, s[b'], s[i]);
        if b' != i {
          assert Lt(s[..n][i], s[..n][b']);
          LtLe(key, s[i], s[b']);
        } else {
          LtLe(s[i], key, key);
        }
      }
    }
  }

  lemma InsertedKeys(s: seq<Key>, n: nat, i: nat, key: Key, r: seq<Key>)
    requires |s| == NODE_SIZE && i <= n < NODE_SIZE
    requires r == s[..i] + [key] + s[i..NODE_SIZE - 1]
    ensures |r| == NODE_SIZE
    ensures SetOf(r[..n + 1]) == SetOf(s[..n]) + {key}
    ensures n + 1 < NODE_SIZE ==> r[n + 1] == s[n]
  {
    assert r[..n + 1] == s[..i] + [key] + s[i..n];
    assert s[..n] == s[..i] + s[i..n];
  }

  // ----- the tree -----------------------------------------------------------------------

  /** The number of separators that are not above the key. */
  method SearchTree(seps: seq<Key>, key: Key) returns (i: nat)
    requires Sorted(seps)
    ensures i <= |seps|
    ensures forall j | 0 <= j < i :: Le(seps[j], key)
    ensures forall j | i <= j < |seps| :: Lt(key, seps[j])
  {
    i := 0;
    var j := |seps|;
    while i < j
      invariant i <= j <= |seps|
      invariant forall k | 0 <= k < i :: Le(seps[k], key)
      invariant forall k | j <= k < |seps| :: Lt(key, seps[k])
    {
      var h := (i + j) / 2;
      if Le(seps[h], key) {
        forall k | 0 <= k <= h ensures Le(seps[k], key) {
          if k < h { LtLe(seps[k], seps[h], key); LeTransitive(seps[k], seps[h], key); }
        }
        i := h + 1;
      } else {
        forall k | h <= k < |seps| ensures Lt(key, seps[k]) {
          if h < k { LtLe(key, seps[h], seps[k]); LtLe(seps[h], seps[k], key); }
        }
        j := h;
      }
    }
  }

  /** Leaf `j` holds the keys from its separator up to the next one; the first unused slot of a
      leaf holds "" or the next separator. */
  ghost predicate InPlace(leaves: seq<Leaf>, seps: seq<Key>, j: nat)
    requires j < |leaves| == |seps|
  {
    var leaf := leaves[j];
    && leaf.Valid() && (|leaves| > 1 ==> leaf.size > 0)
    && (forall k | k in leaf.Keys() :: Le(seps[j], k) && (j + 1 < |seps| ==> Lt(k, seps[j + 1])))
    && (leaf.size < NODE_SIZE ==> leaf.slots[leaf.size] == "" || (j + 1 < |seps| && leaf.slots[leaf.size] == seps[j + 1]))
  }

  ghost predicate Valid(leaves: seq<Leaf>, seps: seq<Key>) {
    && 0 < |leaves| == |seps| && seps[0] == "" && Sorted(seps)
    && forall j: nat | j < |leaves| :: InPlace(leaves, seps, j)
  }

  ghost predicate Has(leaves: seq<Leaf>, k: Key) {
    exists j | 0 <= j < |leaves| :: k in leaves[j].Keys()
  }

  /** Where a key belongs. */
  ghost predicate Home(seps: seq<Key>, i: nat, key: Key) {
    i < |seps| && Le(seps[i], key) && (i + 1 < |seps| ==> Lt(key, seps[i + 1]))
  }

  lemma NoEarlierHome(seps: seq<Key>, i: nat, j: nat, key: Key)
    requires Sorted(seps) && Home(seps, j, key) && i < j
    ensures !Home(seps, i, key)
  {
    if i + 1 < j { LtLe(seps[i + 1], seps[j], key); LeTransitive(seps[i + 1], seps[j], key); }
  }

  lemma SameHome(seps: seq<Key>, i: nat, j: nat, key: Key)
    requires Sorted(seps) && Home(seps, i, key) && Home(seps, j, key)
    ensures i == j
  {
    if i < j { NoEarlierHome(seps, i, j, key); } else if j < i { NoEarlierHome(seps, j, i, key); }
  }

  /** After a split at `m`, the key belongs in one of the two halves. */
  lemma HomeAfterSplit(seps: seq<Key>, i: nat, key: Key, m: Key, s: seq<Key>, j: nat)
    requires Home(seps, i, key) && s == seps[..i + 1] + [m] + seps[i + 1..] && Sorted(s) && Home(s, j, key)
    ensures j == i || j == i + 1
  {
    LeTotal(m, key);
    var h := if Le(m, key) then i + 1 else i;
    assert Home(s, h, key);
    SameHome(s, j, h, key);
  }

  /** Replacing the leaf in which a key belongs by one with that key added. */
  lemma ReplacedLeaf(leaves: seq<Leaf>, seps: seq<Key>, i: nat, key: Key, r: Leaf, l: seq<Leaf>)
    requires Valid(leaves, seps) && Home(seps, i, key)
    requires leaves[i].Valid() && r.Valid() && r.size == leaves[i].size + 1 && r.Keys() == leaves[i].Keys() + {key}
    requires r.size < NODE_SIZE ==> r.slots[r.size] == leaves[i].slots[leaves[i].size]
    requires l == leaves[i := r]
    ensures Valid(l, seps)
    ensures forall k :: Has(l, k) <==> Has(leaves, k) || k == key
  {
    forall j: nat | j < |l| ensures InPlace(l, seps, j) {
      assert InPlace(leaves, seps, j);
    }
    forall k ensures Has(l, k) <==> Has(leaves, k) || k == key {
      if Has(l, k) {
        var j :| 0 <= j < |l| && k in l[j].Keys();
        if j == i && k != key { assert k in leaves[i].Keys(); } else if j != i { assert k in leaves[j].Keys(); }
      }
      if Has(leaves, k) {
        var j :| 0 <= j < |leaves| && k in leaves[j].Keys();
        assert k in l[j].Keys();
      }
      if k == key { assert k in l[i].Keys(); }
    }
  }

  // ----- splitting a full leaf --------------------------------------------------------------

  /** The two halves of a full leaf; the left one keeps its slots, in use or not. */
  function LeftHalf(leaf: Leaf, n: nat): Leaf {
    leaf.(size := n)
  }

  function RightHalf(leaf: Leaf, n: nat): Leaf
    requires n <= |leaf.slots|
  {
    Leaf(leaf.slots[n..] + seq(n, _ => ""), |leaf.slots| - n)
  }

  lemma HalvesKeys(leaf: Leaf, n: nat)
    requires leaf.Valid() && leaf.size == NODE_SIZE && 0 < n < NODE_SIZE
    ensures LeftHalf(leaf, n).Valid() && RightHalf(leaf, n).Valid()
    ensures leaf.Keys() == LeftHalf(leaf, n).Keys() + RightHalf(leaf, n).Keys()
    ensures forall k | k in LeftHalf(leaf, n).Keys() :: Lt(k, leaf.slots[n])
    ensures forall k | k in RightHalf(leaf, n).Keys() :: Le(leaf.slots[n], k)
  {
    var s := leaf.slots;
    assert s[..NODE_SIZE] == s;
    var l, r := LeftHalf(leaf, n), RightHalf(leaf, n);
    assert r.slots[..r.size] == s[n..] && l.slots[..l.size] == s[..n] && s == s[..n] + s[n..];
    forall k | k in r.Keys() ensures Le(s[n], k) {
      var j :| 0 <= j < |s[n..]| && s[n..][j] == k;
      if j > 0 { LtLe(s[n], s[n + j], k); } else { LeReflexive(k); }
    }
  }

  lemma SplitInPlace(leaves: seq<Leaf>, seps: seq<Key>, i: nat, n: nat, j: nat)
    requires Valid(leaves, seps) && i < |leaves| && leaves[i].Valid() && leaves[i].size == NODE_SIZE && 0 < n < NODE_SIZE
    requires j < |leaves| + 1
    ensures var l := leaves[..i] + [LeftHalf(leaves[i], n), RightHalf(leaves[i], n)] + leaves[i + 1..];
            var s := seps[..i + 1] + [leaves[i].slots[n]] + seps[i + 1..];
            |l| == |s| && InPlace(l, s, j)
  {
    var leaf := leaves[i];
    var l := leaves[..i] + [LeftHalf(leaf, n), RightHalf(leaf, n)] + leaves[i + 1..];
    var s := seps[..i + 1] + [leaf.slots[n]] + seps[i + 1..];
    HalvesKeys(leaf, n);
    if j < i {
      assert InPlace(leaves, seps, j);
      assert l[j] == leaves[j] && s[j] == seps[j] && s[j + 1] == seps[j + 1];
    } else if j > i + 1 {
      assert InPlace(leaves, seps, j - 1);
      assert l[j] == leaves[j - 1] && s[j] == seps[j - 1];
    } else {
      assert InPlace(leaves, seps, i);
    }
  }

  lemma SplitSorted(leaves: seq<Leaf>, seps: seq<Key>, i: nat, n: nat)
    requires Valid(leaves, seps) && i < |leaves| && leaves[i].Valid() && leaves[i].size == NODE_SIZE && 0 < n < NODE_SIZE
    ensures Sorted(seps[..i + 1] + [leaves[i].slots[n]] + seps[i + 1..])
    ensures Lt(seps[i], leaves[i].slots[n]) && (i + 1 < |seps| ==> Lt(leaves[i].slots[n], seps[i + 1]))
  {
    var leaf := leaves[i];
    var s := seps[..i + 1] + [leaf.slots[n]] + seps[i + 1..];
    assert InPlace(leaves, seps, i) && leaf.slots[..NODE_SIZE] == leaf.slots;
    assert leaf.slots[0] in leaf.Keys() && leaf.slots[n] in leaf.Keys();
    LtLe(seps[i], leaf.slots[0], leaf.slots[n]);
    forall a, b | 0 <= a < b < |s| ensures Lt(s[a], s[b]) {
      if a <= i && b == i + 1 {
        LtLe(seps[a], seps[i], leaf.slots[n]);
      } else if a == i + 1 {
        LtLe(leaf.slots[n], seps[i + 1], seps[b - 1]);
        LtLe(seps[i + 1], seps[b - 1], seps[b - 1]);
      }
    }
  }

  lemma SplitValid(leaves: seq<Leaf>, seps: seq<Key>, i: nat, n: nat)
    requires Valid(leaves, seps) && i < |leaves| && leaves[i].Valid() && leaves[i].size == NODE_SIZE && 0 < n < NODE_SIZE
    ensures var l := leaves[..i] + [LeftHalf(leaves[i], n), RightHalf(leaves[i], n)] + leaves[i + 1..];
            var s := seps[..i + 1] + [leaves[i].slots[n]] + seps[i + 1..];
            Valid(l, s) && forall k :: Has(l, k) <==> Has(leaves, k)
  {
    var l := leaves[..i] + [LeftHalf(leaves[i], n), RightHalf(leaves[i], n)] + leaves[i + 1..];
    var s := seps[..i + 1] + [leaves[i].slots[n]] + seps[i + 1..];
    forall j: nat | j < |l| ensures InPlace(l, s, j) {
      SplitInPlace(leaves, seps, i, n, j);
    }
    SplitSorted(leaves, seps, i, n);
    HalvesKeys(leaves[i], n);
    forall k ensures Has(l, k) <==> Has(leaves, k) {
      if Has(l, k) {
        var j :| 0 <= j < |l| && k in l[j].Keys();
        var j' := if j <= i then j else j - 1;
        assert k in leaves[j'].Keys();
      }
      if Has(leaves, k) {
        var j :| 0 <= j < |leaves| && k in leaves[j].Keys();
        if j < i { assert k in l[j].Keys(); }
        else if j > i { assert k in l[j + 1].Keys(); }
        else { assert k in l[i].Keys() || k in l[i + 1].Keys(); }
      }
    }
  }

  class Set {
    var leaves: seq<Leaf>
    var seps: seq<Key>

    ghost predicate Ok()
      reads this
    {
      Valid(leaves, seps)
    }

    /** The set represented. */
    ghost function Contents(): (s: set<Key>)
      reads this
      ensures forall k :: k in s <==> Has(leaves, k)
    {
      set j, k | 0 <= j < |leaves| && k in leaves[j].Keys() :: k
    }

    /** The leaf in which the key belongs has a free slot, or the tree has one for a leaf. */
    ghost predicate RoomFor(key: Key)
      reads this
    {
      |leaves| < NODE_SIZE || exists i | 0 <= i < |leaves| :: Home(seps, i, key) && leaves[i].size < NODE_SIZE
    }

    constructor ()
      ensures Ok() && Contents() == {}
    {
      leaves, seps := [EMPTY_LEAF], [""];
    }

    /** The leaf in which a key belongs. */
    method Find(key: Key) returns (i: nat)
      requires Ok()
      ensures Home(seps, i, key) && i < |leaves| && leaves[i].Valid()
    {
      var n := SearchTree(seps, key);
      assert Le(seps[0], key);
      i := n - 1;
      assert InPlace(leaves, seps, i);
    }

    /** Makes room for a key in a full leaf; false if the tree is full too. */
    method Split(i: nat, key: Key) returns (ok: bool)
      requires Ok() && Home(seps, i, key) && i < |leaves| && leaves[i].Valid() && leaves[i].size == NODE_SIZE
      modifies this
      ensures Ok() && Contents() == old(Contents())
      ensures ok == (old(|leaves|) < NODE_SIZE)
      ensures ok ==> forall j | 0 <= j < |leaves| && Home(seps, j, key) :: leaves[j].size < NODE_SIZE
    {
      if |leaves| >= NODE_SIZE {
        return false;
      }
      var leaf := leaves[i];
      var left := if Lt(leaf.slots[NODE_SIZE - 1], key) then NODE_SIZE * 3 / 4
                  else if Lt(key, leaf.slots[0]) then NODE_SIZE / 4
                  else NODE_SIZE / 2;
      SplitValid(leaves, seps, i, left);
      SplitSorted(leaves, seps, i, left);
      var at := SearchTree(seps, leaf.slots[left]);
      SeparatorPlace(seps, i, at, leaf.slots[left]);
      ghost var before := seps;
      leaves := leaves[..i] + [LeftHalf(leaf, left), RightHalf(leaf, left)] + leaves[i + 1..];
      seps := seps[..at] + [leaf.slots[left]] + seps[at..];
      forall j: nat | j < |leaves| && Home(seps, j, key) ensures leaves[j].size < NODE_SIZE {
        HomeAfterSplit(before, i, key, leaf.slots[left], seps, j);
      }
      ok := true;
    }

    /** Adds the key as far as `InsertKey` says, exactly when there is room for it. */
    method Insert(key: Key) returns (ok: bool)
      requires Ok()
      modifies this
      ensures Ok()
      ensures ok == old(RoomFor(key))
      ensures Contents() == if ok then InsertKey(old(Contents()), key) else old(Contents())
    {
      var i := Find(key);
      if leaves[i].size >= NODE_SIZE {
        forall j: nat | j < |leaves| && Home(seps, j, key) ensures j == i { SameHome(seps, i, j, key); }
        ok := Split(i, key);
        if !ok {
          return;
        }
        i := Find(key);
      }
      Place(i, key);
      ok := true;
    }

    /** Puts the key into the leaf in which it belongs. */
    method Place(i: nat, key: Key)
      requires Ok() && Home(seps, i, key) && i < |leaves| && leaves[i].Valid() && leaves[i].size < NODE_SIZE
      modifies this
      ensures Ok() && Contents() == InsertKey(old(Contents()), key)
    {
      if Contents() == {} { EmptySet(leaves, seps); }
      ghost var before := Contents();
      var r, _ := InsertLeaf(leaves[i], key);
      if r != leaves[i] {
        ReplacedLeaf(leaves, seps, i, key, r, leaves[i := r]);
        leaves := leaves[i := r];
        assert Contents() == before + {key};
      } else {
        AlreadyThere(leaves, seps, i, key);
        assert Has(leaves, key) ==> before == before + {key};
      }
    }

    /** Whether some key of the set is in the range. */
    method AnyInRange(from: Key, to: Key) returns (r: bool)
      requires Ok()
      ensures r <==> exists k :: k in Contents() && InRange(k, from, to)
    {
      var i := Find(from);
      var leaf := leaves[i];
      var li := SearchLeaf(leaf.slots, leaf.size, from);
      if li >= leaf.size {
        if i + 1 >= |leaves| {
          NoneFrom(leaves, seps, i, from);
          return false;
        }
        assert InPlace(leaves, seps, i + 1);
        FirstInNext(leaves, seps, i, from);
        leaf, li := leaves[i + 1], 0;
      } else {
        FirstInLeaf(leaves, seps, i, li, from);
      }
      FirstDecides(leaves, from, to, leaf.slots[li]);
      r := Le(leaf.slots[li], to);
    }
  }

  // ----- looking for a key in a range ----------------------------------------------------------

  /** `key` is the smallest in the set that is not below `from`. */
  ghost predicate FirstFrom(leaves: seq<Leaf>, from: Key, key: Key) {
    Le(from, key) && Has(leaves, key) && forall k | Has(leaves, k) && Le(from, k) :: Le(key, k)
  }

  /** Keys of later leaves are above those of earlier ones. */
  lemma LeavesAscend(leaves: seq<Leaf>, seps: seq<Key>, i: nat, j: nat, a: Key, b: Key)
    requires Valid(leaves, seps) && i < j < |leaves| && a in leaves[i].Keys() && b in leaves[j].Keys()
    ensures Lt(a, b)
  {
    assert InPlace(leaves, seps, i) && InPlace(leaves, seps, j);
    LtLe(a, seps[i + 1], seps[j]);
    if i + 1 < j { LtLe(seps[i + 1], seps[j], b); LtLe(a, seps[i + 1], seps[j]); }
    LtLe(a, seps[j], b);
  }

  lemma FirstInLeaf(leaves: seq<Leaf>, seps: seq<Key>, i: nat, li: nat, from: Key)
    requires Valid(leaves, seps) && Home(seps, i, from) && leaves[i].Valid() && li < leaves[i].size
    requires forall j | 0 <= j < li :: Lt(leaves[i].slots[j], from)
    requires Le(from, leaves[i].slots[li])
    ensures FirstFrom(leaves, from, leaves[i].slots[li])
  {
    var key := leaves[i].slots[li];
    assert leaves[i].slots[..leaves[i].size][li] == key;
    assert key in leaves[i].Keys();
    forall k | Has(leaves, k) && Le(from, k) ensures Le(key, k) {
      var j :| 0 <= j < |leaves| && k in leaves[j].Keys();
      if j == i {
        var m :| 0 <= m < leaves[i].size && leaves[i].slots[..leaves[i].size][m] == k;
        if m > li { LtLe(key, k, k); } else if m == li { LeReflexive(k); }
      } else if i < j {
        LeavesAscend(leaves, seps, i, j, key, k);
        LtLe(key, k, k);
      } else {
        BelowHome(leaves, seps, i, from, j, k);
        assert false;
      }
    }
  }

  lemma BelowHome(leaves: seq<Leaf>, seps: seq<Key>, i: nat, from: Key, j: nat, k: Key)
    requires Valid(leaves, seps) && Home(seps, i, from) && j < i && k in leaves[j].Keys()
    ensures Lt(k, from)
  {
    assert InPlace(leaves, seps, j);
    LtLe(k, seps[j + 1], seps[i]);
    if j + 1 < i { LtLe(seps[j + 1], seps[i], from); }
    LtLe(k, seps[i], from);
    LtLe(k, seps[j + 1], from);
  }

  lemma FirstInNext(leaves: seq<Leaf>, seps: seq<Key>, i: nat, from: Key)
    requires Valid(leaves, seps) && Home(seps, i, from) && i + 1 < |leaves|
    requires leaves[i].Valid() && leaves[i + 1].Valid() && leaves[i + 1].size > 0
    requires forall j | 0 <= j < leaves[i].size :: Lt(leaves[i].slots[j], from)
    ensures FirstFrom(leaves, from, leaves[i + 1].slots[0])
  {
    var leaf := leaves[i + 1];
    var key := leaf.slots[0];
    FirstIsKey(leaf);
    assert InPlace(leaves, seps, i + 1);
    LtLe(from, seps[i + 1], key);
    LtLe(from, key, key);
    assert Has(leaves, key) && Le(from, key);
    forall k | Has(leaves, k) && Le(from, k) ensures Le(key, k) {
      var j :| 0 <= j < |leaves| && k in leaves[j].Keys();
      if j == i + 1 {
        var m :| 0 <= m < leaf.size && leaf.slots[..leaf.size][m] == k;
        if m > 0 { LtLe(key, k, k); } else { LeReflexive(k); }
      } else if j > i + 1 {
        LeavesAscend(leaves, seps, i + 1, j, key, k);
        LtLe(key, k, k);
      } else if j == i {
        assert false;
      } else {
        BelowHome(leaves, seps, i, from, j, k);
        assert false;
      }
    }
  }

  lemma NoneFrom(leaves: seq<Leaf>, seps: seq<Key>, i: nat, from: Key)
    requires Valid(leaves, seps) && Home(seps, i, from) && i + 1 == |leaves| && leaves[i].Valid()
    requires forall j | 0 <= j < leaves[i].size :: Lt(leaves[i].slots[j], from)
    ensures forall k | Has(leaves, k) :: Lt(k, from)
  {
    forall k | Has(leaves, k) ensures Lt(k, from) {
      var j :| 0 <= j < |leaves| && k in leaves[j].Keys();
      if j == i {
        var m :| 0 <= m < leaves[i].size && leaves[i].slots[..leaves[i].size][m] == k;
      } else {
        BelowHome(leaves, seps, i, from, j, k);
      }
    }
  }

  lemma FirstDecides(leaves: seq<Leaf>, from: Key, to: Key, key: Key)
    requires FirstFrom(leaves, from, key)
    ensures Le(key, to) <==> exists k :: Has(leaves, k) && InRange(k, from, to)
  {
    if Le(key, to) {
      assert Has(leaves, key) && InRange(key, from, to);
    }
    if k :| Has(leaves, k) && InRange(k, from, to) {
      LeTransitive(key, k, to);
    }
  }

  lemma FirstIsKey(leaf: Leaf)
    requires leaf.Valid()
    ensures leaf.size > 0 ==> leaf.slots[0] in leaf.Keys()
  {
    if leaf.size > 0 { assert leaf.slots[..leaf.size][0] in leaf.Keys(); }
  }

  /** An empty set is one leaf whose first slot holds "". */
  lemma EmptySet(leaves: seq<Leaf>, seps: seq<Key>)
    requires Valid(leaves, seps) && forall k :: !Has(leaves, k)
    ensures |leaves| == 1 && leaves[0].Valid() && leaves[0].size == 0 && leaves[0].slots[0] == ""
  {
    assert InPlace(leaves, seps, 0);
    FirstIsKey(leaves[0]);
    assert leaves[0].size > 0 ==> Has(leaves, leaves[0].slots[0]);
  }

  /** If the leaf left the key out, the key was in the set, or it is the empty key and the set is empty. */
  lemma AlreadyThere(leaves: seq<Leaf>, seps: seq<Key>, i: nat, key: Key)
    requires Valid(leaves, seps) && Home(seps, i, key) && leaves[i].size < |leaves[i].slots|
    requires key in leaves[i].Keys() || key == leaves[i].slots[leaves[i].size]
    requires key !in leaves[i].Keys() ==> forall k | k in leaves[i].Keys() :: Lt(k, key)
    ensures Has(leaves, key) || (key == "" && forall k :: !Has(leaves, k))
  {
    assert InPlace(leaves, seps, i);
    if key !in leaves[i].Keys() {
      LeReflexive(key);
      assert key == "";
      FirstIsKey(leaves[i]);
      assert |leaves| == 1 && leaves[0].Keys() == {};
    }
  }

  lemma SeparatorPlace(seps: seq<Key>, i: nat, at: nat, key: Key)
    requires i < |seps| && at <= |seps| && Lt(seps[i], key) && (i + 1 < |seps| ==> Lt(key, seps[i + 1]))
    requires forall j | 0 <= j < at :: Le(seps[j], key)
    requires forall j | at <= j < |seps| :: Lt(key, seps[j])
    ensures at == i + 1
  {
    LtLe(seps[i], key, key);
  }
}
