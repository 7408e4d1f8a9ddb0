/** Database records: a count, a table of offsets in one of three widths, and the fields, the
    last one first. Reading back what was built gives the fields that went in.
 */
module Record {
  import opened Seal

  type byte = b: int | 0 <= b < 256
  type Bytes = seq<byte>

  const TYPE8 := 1
  const TYPE16 := 2
  const TYPE32 := 3
  const HDRLEN := 2
  const MAX_VALUES := 0x3fff
  const MAX_RECORD_LEN := 1_000_000

  datatype Result<T> = Ok(value: T) | Panic(why: string)

  // ----- numbers, the most significant byte first ------------------------------------------

  function Put(w: nat, n: nat): (b: Bytes)
    ensures |b| == w
  {
    if w == 0 then [] else Put(w - 1, n / 256) + [n % 256]
  }

  function Get(b: Bytes): nat {
    if b == [] then 0 else Get(b[..|b| - 1]) * 256 + b[|b| - 1]
  }

  function Power(w: nat): nat {
    if w == 0 then 1 else 256 * Power(w - 1)
  }

  lemma {:induction false} GetPut(w: nat, n: nat)
    requires n < Power(w)
    ensures Get(Put(w, n)) == n
  {
    if w > 0 {
      GetPut(w - 1, n / 256);
      assert Put(w, n)[..w - 1] == Put(w - 1, n / 256);
    }
  }

  // ----- sizes -------------------------------------------------------------------------------

  function Sum(vals: seq<Bytes>): nat {
    if vals == [] then 0 else Sum(vals[..|vals| - 1]) + |vals[|vals| - 1]|
  }

  /** The length of a record whose offsets take w bytes each. */
  function LengthFor(w: nat, nfields: nat, datasize: nat): nat {
    HDRLEN + w * (1 + nfields) + datasize
  }

  function TbLength(nfields: nat, datasize: nat): nat {
    if nfields == 0 then 1
    else if LengthFor(1, nfields, datasize) < 0x100 then LengthFor(1, nfields, datasize)
    else if LengthFor(2, nfields, datasize) < 0x10000 then LengthFor(2, nfields, datasize)
    else LengthFor(4, nfields, datasize)
  }

  function Mode(length: nat): nat {
    if length == 0 then 0
    else if length < 0x100 then TYPE8
    else if length < 0x10000 then TYPE16
    else TYPE32
  }

  function Width(mode: nat): nat {
    if mode == TYPE8 then 1 else if mode == TYPE16 then 2 else 4
  }

  /** The width that was assumed in computing the length is the one the length stands for. */
  lemma WidthsAgree(nfields: nat, datasize: nat)
    requires nfields > 0
    ensures var length := TbLength(nfields, datasize);
      length == LengthFor(Width(Mode(length)), nfields, datasize)
      && (length < 0x1_0000_0000 ==> length < Power(Width(Mode(length))))
  {
    assert Power(0) == 1 && Power(1) == 256 && Power(2) == 0x10000 && Power(3) == 0x1000000 && Power(4) == 0x1_0000_0000;
  }

  // ----- the bytes of a record -----------------------------------------------------------------

  /** The offset of where field k - 1 starts, and of where field k ends. */
  function Offset(length: nat, vals: seq<Bytes>, k: nat): int
    requires k <= |vals|
  {
    length - Sum(vals[..k])
  }

  /** The first n offsets, starting with the length. */
  function Offsets(w: nat, length: nat, vals: seq<Bytes>, n: nat): Bytes
    requires n <= |vals| + 1 && Sum(vals) <= length
  {
    if n == 0 then []
    else SumPart(vals, n - 1); Offsets(w, length, vals, n - 1) + Put(w, Offset(length, vals, n - 1))
  }

  lemma {:induction false} SumPart(vals: seq<Bytes>, k: nat)
    requires k <= |vals|
    ensures Sum(vals[..k]) <= Sum(vals)
    decreases |vals| - k
  {
    if k == |vals| {
      assert vals[..k] == vals;
    } else {
      SumPart(vals, k + 1);
      assert vals[..k + 1][..k] == vals[..k];
    }
  }

  /** The fields in reverse order. */
  function Data(vals: seq<Bytes>): Bytes {
    if vals == [] then [] else vals[|vals| - 1] + Data(vals[..|vals| - 1])
  }

  lemma {:induction false} DataSize(vals: seq<Bytes>)
    ensures |Data(vals)| == Sum(vals)
  {
    if vals != [] { DataSize(vals[..|vals| - 1]); }
  }

  function Header(mode: nat, n: nat): Bytes {
    Put(2, mode * 0x4000 + n)
  }

  function Built(vals: seq<Bytes>): Bytes {
    if vals == [] then [0]
    else
      var n := |vals|;
      var length := TbLength(n, Sum(vals));
      var mode := Mode(length);
      Header(mode, n) + Offsets(Width(mode), length, vals, n + 1) + Data(vals)
  }

  class RecordBuilder {
    var vals: seq<Bytes>

    constructor ()
      ensures vals == []
    {
      vals := [];
    }

    method AddRaw(s: Bytes)
      modifies this
      ensures vals == old(vals) + [s]
    {
      vals := vals + [s];
    }

    /** Removes trailing empty fields, and no others. */
    method Trim()
      modifies this
      ensures vals == Trimmed(old(vals))
    {
      var n := |vals|;
      assert vals[..n] == vals;
      while n > 0 && vals[n - 1] == []
        invariant 0 <= n <= |vals| && vals == old(vals) && Trimmed(vals) == Trimmed(vals[..n])
      {
        assert vals[..n][..n - 1] == vals[..n - 1];
        n := n - 1;
      }
      vals := vals[..n];
    }

    /** Appends the table of offsets. */
    method BuildOffsets(dst: Bytes, length: nat) returns (r: Bytes)
      requires Sum(vals) <= length
      ensures r == dst + Offsets(Width(Mode(length)), length, vals, |vals| + 1)
    {
      var w := Width(Mode(length));
      var offset: int := length;
      assert vals[..0] == [];
      r := dst + Put(w, length);
      var i := 0;
      assert Offsets(w, length, vals, 1) == Offsets(w, length, vals, 0) + Put(w, length);
      while i < |vals|
        invariant 0 <= i <= |vals| && offset == Offset(length, vals, i) && offset >= 0
        invariant r == dst + Offsets(w, length, vals, i + 1)
      {
        SumPart(vals, i + 1);
        assert vals[..i + 1][..i] == vals[..i];
        offset := offset - |vals[i]|;
        r := r + Put(w, offset);
        i := i + 1;
      }
    }

    method RecSize() returns (length: nat)
      ensures length == TbLength(|vals|, Sum(vals))
    {
      var datasize, i := 0, 0;
      while i < |vals|
        invariant 0 <= i <= |vals| && datasize == Sum(vals[..i])
      {
        assert vals[..i + 1][..i] == vals[..i];
        datasize := datasize + |vals[i]|;
        i := i + 1;
      }
      assert vals[..i] == vals;
      length := TbLength(|vals|, datasize);
    }

    method Build() returns (r: Result<Bytes>)
      ensures r.Panic? <==> |vals| > MAX_VALUES || (vals != [] && TbLength(|vals|, Sum(vals)) > MAX_RECORD_LEN)
      ensures r.Ok? ==> r.value == Built(vals)
    {
      if |vals| > MAX_VALUES {
        return Panic("too many values for record");
      }
      if |vals| == 0 {
        return Ok([0]);
      }
      var length := RecSize();
      if length > MAX_RECORD_LEN {
        return Panic("record too large");
      }
      var mode := Mode(length);
      WidthsAgree(|vals|, Sum(vals));
      var dst := Header(mode, |vals|);
      dst := BuildOffsets(dst, length);
      ghost var top := dst;
      var i := |vals|;
      assert vals[..i] == vals;
      while i > 0
        invariant 0 <= i <= |vals| && dst + Data(vals[..i]) == top + Data(vals)
      {
        i := i - 1;
        assert vals[..i + 1][..i] == vals[..i];
        dst := dst + vals[i];
      }
      r := Ok(dst);
    }
  }

  function Trimmed(vals: seq<Bytes>): seq<Bytes> {
    if vals != [] && vals[|vals| - 1] == [] then Trimmed(vals[..|vals| - 1]) else vals
  }

  // ----- reading -----------------------------------------------------------------------------------

  function ModeOf(r: Bytes): nat
    requires r != []
  {
    r[0] / 64
  }

  function Count(r: Bytes): nat
    requires |r| == 1 ==> r[0] == 0
  {
    if r == [] || r[0] == 0 then 0 else (r[0] as int * 256 + r[1] as int) % 0x4000
  }

  /** The k-th entry of the table of offsets, or none if the record ends before. */
  function Entry(r: Bytes, k: nat): Result<nat>
    requires r != []
  {
    var w := Width(ModeOf(r));
    var j := HDRLEN + w * k;
    if j + w > |r| then Panic("index out of range") else Ok(Get(r[j..j + w]))
  }

  function Len(r: Bytes): Result<nat>
    requires r != []
  {
    if r[0] == 0 then Ok(1)
    else if !(1 <= ModeOf(r) <= 3) then Panic("invalid record type")
    else Entry(r, 0)
  }

  function GetRaw(r: Bytes, i: int): Result<Bytes>
    requires |r| == 1 ==> r[0] == 0
  {
    if i < 0 || Count(r) <= i then Ok([])
    else if !(1 <= ModeOf(r) <= 3) then Panic("invalid record type")
    else
      var end, pos := Entry(r, i), Entry(r, i + 1);
      if end.Panic? || pos.Panic? || !(pos.value <= end.value <= |r|) then Panic("index out of range")
      else Ok(r[pos.value..end.value])
  }

  /** Field i of a list of fields; those beyond the end are empty. */
  function Field(vals: seq<Bytes>, i: int): Bytes {
    if 0 <= i < |vals| then vals[i] else []
  }

  // ----- the round trip ---------------------------------------------------------------------------

  predicate Buildable(vals: seq<Bytes>) {
    |vals| <= MAX_VALUES && (vals != [] ==> TbLength(|vals|, Sum(vals)) <= MAX_RECORD_LEN)
  }

  lemma {:induction false} OffsetsSize(w: nat, length: nat, vals: seq<Bytes>, n: nat)
    requires n <= |vals| + 1 && Sum(vals) <= length
    ensures |Offsets(w, length, vals, n)| == w * n
  {
    if n > 0 {
      OffsetsSize(w, length, vals, n - 1);
      assert w * n == w * (n - 1) + w;
    }
  }

  /** Entry k, which starts at byte `at`. */
  lemma {:induction false} OffsetsAt(w: nat, length: nat, vals: seq<Bytes>, n: nat, k: nat, at: nat)
    requires k < n <= |vals| + 1 && Sum(vals) <= length && at == w * k
    ensures at + w <= |Offsets(w, length, vals, n)| && Sum(vals[..k]) <= length
    ensures Offsets(w, length, vals, n)[at..at + w] == Put(w, Offset(length, vals, k))
  {
    OffsetsSize(w, length, vals, n - 1);
    SumPart(vals, k);
    SumPart(vals, n - 1);
    var head, last := Offsets(w, length, vals, n - 1), Put(w, Offset(length, vals, n - 1));
    assert Offsets(w, length, vals, n) == head + last;
    if k < n - 1 {
      OffsetsAt(w, length, vals, n - 1, k, at);
      assert (head + last)[at..at + w] == head[at..at + w];
    } else {
      assert (head + last)[at..at + w] == last;
    }
  }

  /** x is there in the bytes; sealed. */
  ghost predicate Slice(r: Bytes, pos: int, end: int, x: Bytes) {
    var sealed := forall u: int {:trigger Unfold(u)} :: Unfold(u) ==> 0 <= pos <= end <= |r| && r[pos..end] == x;
    sealed
  }

  lemma SliceFirst(x: Bytes, s: Bytes)
    ensures Slice(x + s, 0, |x|, x)
  {
    assert (x + s)[0..|x|] == x;
  }

  lemma SliceAfter(a: Bytes, s: Bytes, pos: int, end: int, x: Bytes)
    requires Slice(s, pos, end, x)
    ensures Slice(a + s, |a| + pos, |a| + end, x)
  {
    assert Unfold(0);
    assert (a + s)[|a| + pos..|a| + end] == s[pos..end];
  }

  lemma SliceIn(r: Bytes, d: nat, tail: Bytes, lo: int, hi: int, x: Bytes, pos: int, end: int)
    requires d <= |r| && r[d..] == tail && Slice(tail, lo, hi, x) && pos == d + lo && end == d + hi
    ensures Slice(r, pos, end, x)
  {
    SliceAfter(r[..d], tail, lo, hi, x);
    assert r == r[..d] + tail;
  }

  /** Field k of the data lies between offsets k + 1 and k. */
  lemma {:induction false} DataAt(vals: seq<Bytes>, k: nat, lo: int, hi: int, all: Bytes)
    requires all == Data(vals)
    requires k < |vals| && lo == Sum(vals) - Sum(vals[..k + 1]) && hi == Sum(vals) - Sum(vals[..k])
    ensures Slice(all, lo, hi, vals[k])
    decreases |vals|
  {
    var n := |vals| - 1;
    var last, rest := vals[n], vals[..n];
    var data := Data(rest);
    assert all == last + data && Sum(vals) == |last| + Sum(rest);
    if k == n {
      assert vals[..k + 1] == vals;
      SliceFirst(last, data);
    } else {
      assert rest[..k] == vals[..k] && rest[..k + 1] == vals[..k + 1];
      var a, b := lo - |last|, hi - |last|;
      DataAt(rest, k, a, b, data);
      SliceAfter(last, data, a, b, vals[k]);
    }
  }

  lemma BuiltParts(vals: seq<Bytes>, length: nat, w: nat)
    requires vals != [] && Buildable(vals) && length == TbLength(|vals|, Sum(vals)) && w == Width(Mode(length))
    ensures Sum(vals) <= length && length == LengthFor(w, |vals|, Sum(vals)) && length < Power(w) && 1 <= Mode(length) <= 3
    ensures Built(vals)[..HDRLEN] == Header(Mode(length), |vals|)
    ensures var d := HDRLEN + |Offsets(w, length, vals, |vals| + 1)|;
      |Built(vals)| == length == d + Sum(vals)
      && Built(vals)[HDRLEN..d] == Offsets(w, length, vals, |vals| + 1) && Built(vals)[d..] == Data(vals)
  {
    WidthsAgree(|vals|, Sum(vals));
    OffsetsSize(w, length, vals, |vals| + 1);
    DataSize(vals);
  }

  lemma HeaderBytes(mode: nat, n: nat)
    requires 1 <= mode <= 3 && n < 0x4000
    ensures var h := Header(mode, n); |h| == 2 && h[0] != 0 && h[0] / 64 == mode && (h[0] as int * 256 + h[1] as int) % 0x4000 == n
  {
    var v := mode * 0x4000 + n;
    var hi := mode * 64 + n / 256;
    Halves(mode, n);
    assert Put(2, v) == Put(1, hi) + [v % 256];
    assert Put(1, hi) == Put(0, hi / 256) + [hi];
  }

  lemma Halves(mode: nat, n: nat)
    requires 1 <= mode <= 3 && n < 0x4000
    ensures var v, hi := mode * 0x4000 + n, mode * 64 + n / 256;
      v / 256 == hi && v % 256 == n % 256 && hi < 256 && hi / 64 == mode && (hi * 256 + n % 256) % 0x4000 == n
  {
    if mode == 1 { } else if mode == 2 { } else { }
  }

  lemma BuiltHeader(vals: seq<Bytes>, length: nat)
    requires vals != [] && Buildable(vals) && length == TbLength(|vals|, Sum(vals))
    ensures var r := Built(vals); |r| > 1 && r[0] != 0 && ModeOf(r) == Mode(length) && Count(r) == |vals|
  {
    BuiltParts(vals, length, Width(Mode(length)));
    HeaderBytes(Mode(length), |vals|);
    var r := Built(vals);
    assert r[0] == r[..HDRLEN][0] && r[1] == r[..HDRLEN][1];
  }

  lemma BuiltEntry(vals: seq<Bytes>, length: nat, k: nat)
    requires vals != [] && Buildable(vals) && length == TbLength(|vals|, Sum(vals)) && k <= |vals|
    ensures Sum(vals[..k]) <= length && Built(vals) != [] && Entry(Built(vals), k) == Ok(Offset(length, vals, k))
  {
    var w, r := Width(Mode(length)), Built(vals);
    BuiltHeader(vals, length);
    assert w == Width(ModeOf(r));
    BuiltParts(vals, length, w);
    var at := w * k;
    ReadEntry(r, vals, length, w, k, at);
  }

  lemma ReadEntry(r: Bytes, vals: seq<Bytes>, length: nat, w: nat, k: nat, at: nat)
    requires r != [] && w == Width(ModeOf(r)) && at == w * k && k <= |vals| && Sum(vals) <= length < Power(w)
    requires var o := Offsets(w, length, vals, |vals| + 1); HDRLEN + |o| <= |r| && r[HDRLEN..HDRLEN + |o|] == o
    ensures Sum(vals[..k]) <= length && Entry(r, k) == Ok(Offset(length, vals, k))
  {
    var o := Offsets(w, length, vals, |vals| + 1);
    OffsetsAt(w, length, vals, |vals| + 1, k, at);
    Within(r, HDRLEN, HDRLEN + |o|, at, at + w);
    GetPut(w, Offset(length, vals, k));
    EntryAt(r, k, w, HDRLEN + at);
  }

  lemma EntryAt(r: Bytes, k: nat, w: nat, j: nat)
    requires r != [] && w == Width(ModeOf(r)) && j == HDRLEN + w * k && j + w <= |r|
    ensures Entry(r, k) == Ok(Get(r[j..j + w]))
  {
  }

  /** A slice of a slice. */
  lemma Within<T>(r: seq<T>, a: nat, b: nat, i: nat, j: nat)
    requires a <= b <= |r| && i <= j <= b - a
    ensures r[a..b][i..j] == r[a + i..a + j]
  {
    forall k | 0 <= k < j - i ensures r[a..b][i..j][k] == r[a + i..a + j][k] {
      assert r[a..b][i..j][k] == r[a..b][i + k];
    }
  }

  /** What is built has the count, the length and the fields that went into it. */
  lemma RoundTrip(vals: seq<Bytes>, i: int)
    requires Buildable(vals)
    ensures var r := Built(vals);
      && r != [] && (|r| == 1 ==> r[0] == 0)
      && Count(r) == |vals| && Len(r) == Ok(|r|) && GetRaw(r, i) == Ok(Field(vals, i))
  {
    if vals != [] {
      var length := TbLength(|vals|, Sum(vals));
      BuiltHeader(vals, length);
      BuiltLength(vals, length);
      if 0 <= i < |vals| { BuiltField(vals, length, i); }
    }
  }

  lemma BuiltLength(vals: seq<Bytes>, length: nat)
    requires vals != [] && Buildable(vals) && length == TbLength(|vals|, Sum(vals))
    ensures var r := Built(vals); r != [] && |r| == length && Len(r) == Ok(length)
  {
    BuiltHeader(vals, length);
    BuiltParts(vals, length, Width(Mode(length)));
    BuiltEntry(vals, length, 0);
    assert vals[..0] == [];
  }

  lemma BuiltField(vals: seq<Bytes>, length: nat, i: nat)
    requires vals != [] && Buildable(vals) && length == TbLength(|vals|, Sum(vals)) && i < |vals|
    ensures var r := Built(vals); (|r| == 1 ==> r[0] == 0) && GetRaw(r, i) == Ok(vals[i])
  {
    var r := Built(vals);
    var end, pos := BuiltReads(vals, length, i, r);
    BuiltSlice(vals, length, i, r, pos, end);
    assert Unfold(0);
    GetsSlice(r, |vals|, i, pos, end, vals[i]);
    assert Open(0);
  }

  lemma BuiltReads(vals: seq<Bytes>, length: nat, i: nat, r: Bytes) returns (end: nat, pos: nat)
    requires vals != [] && Buildable(vals) && length == TbLength(|vals|, Sum(vals)) && i < |vals| && r == Built(vals)
    ensures Holds(r, |vals|) && Reads(r, i, end) && Reads(r, i + 1, pos)
    ensures end == Offset(length, vals, i) && pos == Offset(length, vals, i + 1)
  {
    WidthsAgree(|vals|, Sum(vals));
    BuiltHeader(vals, length);
    BuiltEntry(vals, length, i);
    BuiltEntry(vals, length, i + 1);
    end, pos := Offset(length, vals, i), Offset(length, vals, i + 1);
  }

  lemma BuiltSlice(vals: seq<Bytes>, length: nat, i: nat, r: Bytes, pos: nat, end: nat)
    requires vals != [] && Buildable(vals) && length == TbLength(|vals|, Sum(vals)) && i < |vals| && r == Built(vals)
    requires end == Offset(length, vals, i) && pos == Offset(length, vals, i + 1)
    ensures Slice(r, pos, end, vals[i])
  {
    var w := Width(Mode(length));
    BuiltParts(vals, length, w);
    var d := HDRLEN + |Offsets(w, length, vals, |vals| + 1)|;
    DataSlice(vals, i, r, d, pos, end);
  }

  /** Field i of a record whose data starts at d. */
  lemma DataSlice(vals: seq<Bytes>, i: nat, r: Bytes, d: nat, pos: int, end: int)
    requires i < |vals| && |r| == d + Sum(vals) && r[d..] == Data(vals)
    requires end == |r| - Sum(vals[..i]) && pos == |r| - Sum(vals[..i + 1])
    ensures Slice(r, pos, end, vals[i])
  {
    var lo, hi, data := pos - d, end - d, Data(vals);
    DataAt(vals, i, lo, hi, data);
    SliceIn(r, d, data, lo, hi, vals[i], pos, end);
  }

  lemma GetsSlice(r: Bytes, n: nat, i: nat, pos: nat, end: nat, x: Bytes)
    requires Holds(r, n) && i < n
    requires Reads(r, i, end) && Reads(r, i + 1, pos) && pos <= end <= |r| && r[pos..end] == x
    ensures Gets(r, i, x)
  {
    assert Open(0);
  }

  /** The header says n fields; sealed. */
  ghost predicate Holds(r: Bytes, n: nat) {
    var sealed := forall u: int {:trigger Open(u)} :: Open(u) ==> |r| > 1 && Count(r) == n && 1 <= ModeOf(r) <= 3;
    sealed
  }

  /** Field i is x; sealed. */
  ghost predicate Gets(r: Bytes, i: int, x: Bytes) {
    var sealed := forall u: int {:trigger Open(u)} :: Open(u) ==> (|r| == 1 ==> r[0] == 0) && GetRaw(r, i) == Ok(x);
    sealed
  }

  /** The k-th entry of the table is n; sealed. */
  ghost predicate Reads(r: Bytes, k: nat, n: nat) {
    var sealed := forall u: int {:trigger Open(u)} :: Open(u) ==> r != [] && Entry(r, k) == Ok(n);
    sealed
  }

  // ----- trimming and truncating -----------------------------------------------------------------------

  /** Trimming changes no field, since those beyond the end read as empty. */
  lemma {:induction false} TrimmedField(vals: seq<Bytes>, i: int)
    ensures Field(Trimmed(vals), i) == Field(vals, i) && |Trimmed(vals)| <= |vals| && Sum(Trimmed(vals)) == Sum(vals)
    ensures Trimmed(vals) <= vals && (Trimmed(vals) != [] ==> Trimmed(vals)[|Trimmed(vals)| - 1] != [])
  {
    if vals != [] && vals[|vals| - 1] == [] { TrimmedField(vals[..|vals| - 1], i); }
  }

  /** The record holds the fields; sealed. */
  ghost predicate IsRecord(r: Bytes, vals: seq<Bytes>) {
    var sealed := forall u: int {:trigger Open(u)} :: Open(u) ==> Buildable(vals) && r == Built(vals);
    sealed
  }

  lemma HasField(r: Bytes, vals: seq<Bytes>, i: nat)
    requires IsRecord(r, vals) && i < |vals|
    ensures (|r| == 1 ==> r[0] == 0) && GetRaw(r, i) == Ok(vals[i])
  {
    assert Open(0);
    RoundTrip(vals, i);
  }

  /** The record shortened to n fields. */
  method Truncate(r: Bytes, n: nat, ghost vals: seq<Bytes>) returns (s: Result<Bytes>)
    requires Buildable(vals) && r == Built(vals)
    ensures s.Ok?
    ensures s.value == if |vals| <= n then r else Built(Trimmed(vals[..n]))
  {
    RoundTrip(vals, 0);
    var rn := Count(r);
    if rn <= n {
      return Ok(r);
    }
    var rb := FirstFields(r, n, vals);
    rb.Trim();
    TruncatedBuildable(vals, n);
    s := rb.Build();
  }

  method FirstFields(r: Bytes, n: nat, ghost vals: seq<Bytes>) returns (rb: RecordBuilder)
    requires IsRecord(r, vals) && n <= |vals|
    ensures fresh(rb) && rb.vals == vals[..n]
  {
    rb := new RecordBuilder();
    var i := 0;
    while i < n
      invariant 0 <= i <= n && rb.vals == vals[..i]
    {
      HasField(r, vals, i);
      assert vals[..i + 1] == vals[..i] + [vals[i]];
      rb.AddRaw(GetRaw(r, i).value);
      i := i + 1;
    }
  }

  lemma TruncatedBuildable(vals: seq<Bytes>, n: nat)
    requires Buildable(vals) && n < |vals|
    ensures Buildable(Trimmed(vals[..n]))
  {
    SumPart(vals, n);
    TrimmedField(vals[..n], 0);
  }

  /** Truncating keeps the fields below n and makes the others read as empty. */
  lemma TruncatedField(vals: seq<Bytes>, n: nat, i: int)
    requires Buildable(vals) && n < |vals|
    ensures Buildable(Trimmed(vals[..n]))
    ensures GetRaw(Built(Trimmed(vals[..n])), i) == Ok(if i < n then Field(vals, i) else [])
  {
    TruncatedBuildable(vals, n);
    TrimmedField(vals[..n], i);
    RoundTrip(Trimmed(vals[..n]), i);
  }
}
