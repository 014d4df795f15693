/** The KV cache tensor: a flat buffer with two address layouts, an in-place broadcast to beams and an
    in-place gather of beams. */
module KVCacheTensors {
  import opened ReorderPlan
  import opened KVLayout
  import Arith

  // ---------- rows of a flat buffer ----------

  ghost predicate SlabFits<T>(buf: seq<T>, first: nat, n: nat, cols: nat) {
    (first + n) * cols <= |buf|
  }

  /** A row of a slab fits, and so do the rows before it. */
  lemma RowFits<T>(buf: seq<T>, first: nat, n: nat, cols: nat, k: nat)
    requires SlabFits(buf, first, n, cols) && k < n
    ensures SlabFits(buf, first + k, 1, cols) && SlabFits(buf, first, k, cols)
  {
    Arith.MulMono(first + k, first + n, cols);
    Arith.MulMono(first + k + 1, first + n, cols);
  }

  lemma RowBounds<T>(buf: seq<T>, r: nat, cols: nat)
    requires SlabFits(buf, r, 1, cols)
    ensures 0 <= r * cols <= r * cols + cols <= |buf|
  {
    RowStarts(r, cols);
    Arith.MulMono(0, r, cols);
  }

  function Row<T>(buf: seq<T>, r: nat, cols: nat): (row: seq<T>)
    requires SlabFits(buf, r, 1, cols)
    ensures |row| == cols
  {
    hide SlabFits;
    RowBounds(buf, r, cols);
    buf[r * cols..r * cols + cols]
  }

  /** The n rows that start at row "first". */
  function Slab<T>(buf: seq<T>, first: nat, n: nat, cols: nat): (s: seq<seq<T>>)
    requires SlabFits(buf, first, n, cols)
    ensures |s| == n
  {
    hide SlabFits, Row;
    if n == 0 then []
    else
      RowFits(buf, first, n, cols, n - 1);
      Slab(buf, first, n - 1, cols) + [Row(buf, first + (n - 1), cols)]
  }

  lemma {:induction false} SlabAt<T>(buf: seq<T>, first: nat, n: nat, cols: nat, k: nat)
    requires SlabFits(buf, first, n, cols) && k < n
    ensures SlabFits(buf, first + k, 1, cols)
    ensures Slab(buf, first, n, cols)[k] == Row(buf, first + k, cols)
  {
    hide SlabFits, Row;
    RowFits(buf, first, n, cols, k);
    if k < n - 1 {
      RowFits(buf, first, n, cols, n - 1);
      SlabAt(buf, first, n - 1, cols, k);
    }
  }

  /** buf with the elements from position x on replaced by row */
  function Spliced<T>(buf: seq<T>, x: nat, row: seq<T>): (s: seq<T>)
    requires x + |row| <= |buf|
    ensures |s| == |buf|
  {
    seq(|buf|, k requires 0 <= k < |buf| => if x <= k < x + |row| then row[k - x] else buf[k])
  }

  /** Replacing the elements of one row replaces that row of the slab and no other. */
  lemma SlabUpdate<T>(a: seq<T>, b: seq<T>, first: nat, n: nat, cols: nat, k: nat, row: seq<T>)
    requires SlabFits(a, first, n, cols) && SlabFits(b, first, n, cols) && k < n && |row| == cols
    requires (first + k) * cols + cols <= |a|
    requires b == Spliced(a, (first + k) * cols, row)
    ensures Slab(b, first, n, cols) == Slab(a, first, n, cols)[k := row]
  {
    hide SlabFits, Slab, Row, Spliced;
    forall j | 0 <= j < n
      ensures Slab(b, first, n, cols)[j] == if j == k then row else Slab(a, first, n, cols)[j]
    {
      SlabAt(a, first, n, cols, j);
      SlabAt(b, first, n, cols, j);
      RowUpdate(a, b, first + k, first + j, cols, row);
    }
  }

  lemma RowUpdate<T>(a: seq<T>, b: seq<T>, r: nat, q: nat, cols: nat, row: seq<T>)
    requires SlabFits(a, q, 1, cols) && SlabFits(b, q, 1, cols) && |row| == cols
    requires r * cols + cols <= |a|
    requires b == Spliced(a, r * cols, row)
    ensures Row(b, q, cols) == if q == r then row else Row(a, q, cols)
  {
    hide SlabFits, Spliced, Row;
    RowIs(a, q, cols, q * cols);
    RowIs(b, q, cols, q * cols);
    if q == r {
      Splice(a, b, r * cols, r * cols, cols, row);
    } else {
      RowsApart(q, r, cols);
      Splice(a, b, r * cols, q * cols, cols, row);
    }
  }

  lemma RowIs<T>(buf: seq<T>, r: nat, cols: nat, x: int)
    requires SlabFits(buf, r, 1, cols) && x == r * cols
    ensures 0 <= x <= x + cols <= |buf| && Row(buf, r, cols) == buf[x..x + cols]
  {
    RowBounds(buf, r, cols);
  }

  lemma RowStarts(r: nat, cols: nat)
    ensures (r + 1) * cols == r * cols + cols
  {
  }

  lemma RowsApart(q: nat, r: nat, cols: nat)
    requires q != r
    ensures if q < r then q * cols + cols <= r * cols else r * cols + cols <= q * cols
  {
    if q < r {
      Arith.MulMono(q + 1, r, cols);
    } else {
      Arith.MulMono(r + 1, q, cols);
    }
  }

  lemma Splice<T>(a: seq<T>, b: seq<T>, x: nat, y: nat, n: nat, row: seq<T>)
    requires x + n <= |a| && y + n <= |a| && |row| == n
    requires b == Spliced(a, x, row)
    requires x == y || x + n <= y || y + n <= x
    ensures x == y ==> b[y..y + n] == row
    ensures x != y ==> b[y..y + n] == a[y..y + n]
  {
    forall k | 0 <= k < n
      ensures b[y..y + n][k] == if x == y then row[k] else a[y + k]
    {
    }
  }

  // ---------- memcpy, swapValues, skippableCopy, valueExist ----------

  /** memcpy: the regions do not overlap (or are the very same region). */
  method MemCopy<T>(dst: array<T>, d: nat, src: array<T>, s: nat, n: nat)
    requires d + n <= dst.Length && s + n <= src.Length
    requires dst == src ==> d == s || d + n <= s || s + n <= d
    modifies dst
    ensures dst[..] == Spliced(old(dst[..]), d, old(src[s..s + n]))
  {
    forall i | 0 <= i < n {
      dst[d + i] := src[s + i];
    }
  }

  /** buf with the runs [p1, p1 + size) and [p2, p2 + size) exchanged */
  function Swapped<T>(buf: seq<T>, p1: nat, p2: nat, size: nat): (s: seq<T>)
    requires p1 + size <= p2 && p2 + size <= |buf|
    ensures |s| == |buf|
  {
    seq(|buf|, k requires 0 <= k < |buf| =>
      if p1 <= k < p1 + size then buf[k - p1 + p2] else if p2 <= k < p2 + size then buf[k - p2 + p1] else buf[k])
  }

  /** One vector store. */
  method Store<T>(buf: array<T>, x: nat, v: seq<T>)
    requires x + |v| <= buf.Length
    modifies buf
    ensures buf[..] == Spliced(old(buf[..]), x, v)
  {
    forall i | 0 <= i < |v| {
      buf[x + i] := v[i];
    }
  }

  lemma SwappedIsTwoSplices<T>(a: seq<T>, p1: nat, p2: nat, size: nat)
    requires p1 + size <= p2 && p2 + size <= |a|
    ensures Swapped(a, p1, p2, size) == Spliced(Spliced(a, p1, a[p2..p2 + size]), p2, a[p1..p1 + size])
  {
  }

  /** One vector load of each run, then the two stores crossed over. */
  method SwapVector<T>(buf: array<T>, p1: nat, p2: nat, lanes: nat)
    requires p1 + lanes <= p2 && p2 + lanes <= buf.Length
    modifies buf
    ensures buf[..] == Swapped(old(buf[..]), p1, p2, lanes)
  {
    hide Swapped, Spliced;
    SwappedIsTwoSplices(buf[..], p1, p2, lanes);
    var v1, v2 := buf[p1..p1 + lanes], buf[p2..p2 + lanes];
    Store(buf, p1, v2);
    Store(buf, p2, v1);
  }

  lemma SwappedAt<T>(buf: seq<T>, p1: nat, p2: nat, size: nat, k: nat)
    requires p1 + size <= p2 && p2 + size <= |buf| && k < |buf|
    ensures Swapped(buf, p1, p2, size)[k] ==
      if p1 <= k < p1 + size then buf[k - p1 + p2] else if p2 <= k < p2 + size then buf[k - p2 + p1] else buf[k]
  {
  }

  lemma SwappedNone<T>(buf: seq<T>, p1: nat, p2: nat)
    requires p1 <= p2 <= |buf|
    ensures Swapped(buf, p1, p2, 0) == buf
  {
  }

  lemma SwappedMore<T>(buf: seq<T>, p1: nat, p2: nat, i: nat, lanes: nat)
    requires p1 + i + lanes <= p2 && p2 + i + lanes <= |buf|
    ensures Swapped(Swapped(buf, p1, p2, i), p1 + i, p2 + i, lanes) == Swapped(buf, p1, p2, i + lanes)
  {
    hide Swapped;
    var b := Swapped(buf, p1, p2, i);
    var c, d := Swapped(b, p1 + i, p2 + i, lanes), Swapped(buf, p1, p2, i + lanes);
    forall k | 0 <= k < |buf|
      ensures c[k] == d[k]
    {
      SwappedAt(buf, p1, p2, i, k);
      SwappedAt(buf, p1, p2, i + lanes, k);
      SwappedAt(b, p1 + i, p2 + i, lanes, k);
      if p1 + i <= k < p1 + i + lanes {
        SwappedAt(buf, p1, p2, i, k - p1 + p2);
      } else if p2 + i <= k < p2 + i + lanes {
        SwappedAt(buf, p1, p2, i, k - p2 + p1);
      }
    }
  }

  /** Exchange two runs of a buffer, one vector of "lanes" elements at a time, then a masked tail. */
  method SwapValues<T>(buf: array<T>, p1: nat, p2: nat, size: nat, lanes: nat)
    requires 0 < lanes && p1 + size <= p2 && p2 + size <= buf.Length
    modifies buf
    ensures buf[..] == Swapped(old(buf[..]), p1, p2, size)
  {
    hide Swapped;
    SwappedNone(buf[..], p1, p2);
    var i := 0;
    while i + lanes - 1 < size
      invariant 0 <= i <= size
      invariant buf[..] == Swapped(old(buf[..]), p1, p2, i)
    {
      SwappedMore(old(buf[..]), p1, p2, i, lanes);
      SwapVector(buf, p1 + i, p2 + i, lanes);
      i := i + lanes;
    }
    if i < size {
      SwappedMore(old(buf[..]), p1, p2, i, size - i);
      SwapVector(buf, p1 + i, p2 + i, size - i);
    }
  }

  /** The skip test of skippableCopy: the leading eight bytes, "word" elements, agree. */
  function SameWord<T(==)>(word: nat): (seq<T>, seq<T>) -> bool {
    (a: seq<T>, b: seq<T>) => word <= |a| && word <= |b| && a[..word] == b[..word]
  }

  method SkippableCopy<T(==)>(dst: array<T>, d: nat, src: array<T>, s: nat, n: nat, word: nat)
    requires d + n <= dst.Length && s + n <= src.Length && word <= n
    requires dst == src ==> d + n <= s || s + n <= d
    modifies dst
    ensures dst[..] == Spliced(old(dst[..]), d, old(Copied(SameWord(word), dst[d..d + n], src[s..s + n])))
  {
    assert dst[d..d + n][..word] == dst[d..d + word];
    assert src[s..s + n][..word] == src[s..s + word];
    if dst[d..d + word] != src[s..s + word] {
      MemCopy(dst, d, src, s, n);
    }
  }

  /** Rows of one token that agree in their leading word are equal. */
  ghost predicate TellsApart<T>(rows: seq<seq<T>>, word: nat) {
    forall a, b :: a in rows && b in rows && word <= |a| && word <= |b| && a[..word] == b[..word] ==> a == b
  }

  /** Where leading words tell rows apart, reordering by idx puts the old row idx[k] into row k. */
  lemma ReorderWrittenOut<T>(rows: seq<seq<T>>, idx: seq<int>, word: nat, k: nat)
    requires GoodIndex(idx) && |rows| == |idx| && k < |idx| && TellsApart(rows, word)
    ensures Run(rows, idx, |idx|, SameWord(word)).rows[k] == rows[idx[k]]
  {
    TellsApartIsSafe(rows, idx, SameWord(word));
  }

  /** What the run leaves in a position. */
  lemma ReorderedRows<T>(rows: seq<seq<T>>, now: seq<seq<T>>, idx: seq<int>, B: nat, word: nat)
    requires B <= |idx| && GoodIndex(idx[..B]) && |rows| == B
    requires now == Run(rows, idx[..B], B, SameWord(word)).rows
    ensures |now| == B && (IsGather(now, rows, idx[..B]) <==> AllSafe(rows, idx[..B], SameWord(word)))
    ensures TellsApart(rows, word) ==> forall k :: 0 <= k < B ==> 0 <= idx[k] < B && now[k] == rows[idx[k]]
  {
    hide Run, TellsApart, SameWord, IsGather, AllSafe;
    GatherIffSafe(rows, idx[..B], SameWord(word));
    if TellsApart(rows, word) {
      forall k | 0 <= k < B
        ensures 0 <= idx[k] < B && now[k] == rows[idx[k]]
      {
        ReorderWrittenOut(rows, idx[..B], word, k);
      }
    }
  }

  /** Both rows ask for the second one: row 0 keeps what it has exactly when the leading words agree. */
  lemma EqualWordsKeepTheOldRow<T>(first: seq<T>, second: seq<T>, word: nat)
    requires word <= |first| && word <= |second|
    ensures GoodIndex([1, 1])
    ensures Run([first, second], [1, 1], 2, SameWord(word)).rows
      == [if first[..word] == second[..word] then first else second, second]
  {
    var rows, idx, same := [first, second], [1, 1], SameWord(word);
    assert Run(rows, idx, 0, same) == Machine(rows, [], idx);
    assert Run(rows, idx, 1, same) == Step(Run(rows, idx, 0, same), 0, same);
    assert Run(rows, idx, 2, same) == Step(Run(rows, idx, 1, same), 1, same);
  }

  method ValueExist(arr: array<int>, lo: nat, val: int) returns (found: bool)
    requires lo <= arr.Length
    ensures found == Wanted(arr[..], lo, val)
  {
    for i := lo to arr.Length
      invariant forall k :: lo <= k < i ==> arr[k] != val
    {
      if arr[i] == val {
        assert arr[..][i] == val;
        return true;
      }
    }
    return false;
  }

  method ReplaceIn(arr: array<int>, lo: nat, oldName: int, newName: int)
    requires lo <= arr.Length
    modifies arr
    ensures arr[..] == Replace(old(arr[..]), lo, oldName, newName)
  {
    for i := lo to arr.Length
      invariant forall k :: 0 <= k < arr.Length ==>
        arr[k] == (if lo <= k < i && old(arr[k]) == oldName then newName else old(arr[k]))
    {
      if arr[i] == oldName {
        arr[i] := newName;
      }
    }
  }

  method ExchangeIn(arr: array<int>, lo: nat, a: int, b: int)
    requires lo <= arr.Length
    modifies arr
    ensures arr[..] == Exchange(old(arr[..]), lo, a, b)
  {
    for i := lo to arr.Length
      invariant forall k :: 0 <= k < arr.Length ==>
        arr[k] == (if lo <= k < i && old(arr[k]) == a then b else if lo <= k < i && old(arr[k]) == b then a
          else old(arr[k]))
    {
      if arr[i] == a {
        arr[i] := b;
      } else if arr[i] == b {
        arr[i] := a;
      }
    }
  }

  // ---------- one sequence position ----------

  /** Nothing outside the n rows that start at row "first" differs. */
  ghost predicate SameOutside<T>(a: seq<T>, b: seq<T>, first: nat, n: nat, cols: nat) {
    && |a| == |b|
    && forall k :: 0 <= k < |a| && (k < first * cols || (first + n) * cols <= k) ==> a[k] == b[k]
  }

  /** The reorder machine of the sequence position whose rows start at row "first". */
  ghost function View<T>(data: seq<T>, extra: seq<T>, remap: seq<int>, first: nat, used: nat,
                         cols: nat): Machine<seq<T>>
    requires SlabFits(data, first, |remap|, cols) && SlabFits(extra, 0, used, cols)
  {
    Machine(Slab(data, first, |remap|, cols), Slab(extra, 0, used, cols), remap)
  }

  lemma SpliceOutside<T>(a: seq<T>, first: nat, n: nat, cols: nat, k: nat, row: seq<T>)
    requires SlabFits(a, first, n, cols) && k < n && |row| == cols
    ensures (first + k) * cols + cols <= |a|
    ensures var b := Spliced(a, (first + k) * cols, row);
      && SameOutside(a, b, first, n, cols) && SlabFits(b, first, n, cols)
      && Slab(b, first, n, cols) == Slab(a, first, n, cols)[k := row]
  {
    RowFits(a, first, n, cols, k);
    RowBounds(a, first + k, cols);
    var b := Spliced(a, (first + k) * cols, row);
    assert SlabFits(b, first, n, cols);
    hide Slab, SlabFits;
    SlabUpdate(a, b, first, n, cols, k, row);
    SplicedInside(a, (first + k) * cols, row, first, n, cols, k);
  }

  lemma SplicedInside<T>(a: seq<T>, x: nat, row: seq<T>, first: nat, n: nat, cols: nat, k: nat)
    requires k < n && |row| == cols && x + cols <= |a| && x == (first + k) * cols
    ensures SameOutside(a, Spliced(a, x, row), first, n, cols)
  {
    RowStarts(first + k, cols);
    Arith.MulMono(first, first + k, cols);
    Arith.MulMono(first + k + 1, first + n, cols);
  }

  /** The elements of row k of a slab. */
  lemma SlabRow<T>(buf: seq<T>, first: nat, n: nat, cols: nat, k: nat)
    requires SlabFits(buf, first, n, cols) && k < n
    ensures 0 <= (first + k) * cols <= (first + k) * cols + cols <= |buf|
    ensures Slab(buf, first, n, cols)[k] == buf[(first + k) * cols..(first + k) * cols + cols]
  {
    hide Slab, SlabFits;
    SlabAt(buf, first, n, cols, k);
    RowBounds(buf, first + k, cols);
  }

  /** memcpy of row i of the position into the next free slot of the spill buffer. */
  method SaveRow<T>(extra: array<T>, used: nat, data: array<T>, first: nat, n: nat, i: nat, cols: nat)
    requires extra != data && i < n
    requires SlabFits(data[..], first, n, cols) && SlabFits(extra[..], 0, used + 1, cols)
    modifies extra
    ensures SlabFits(extra[..], 0, used + 1, cols)
    ensures Slab(extra[..], 0, used + 1, cols) ==
      old(Slab(extra[..], 0, used + 1, cols))[used := old(Slab(data[..], first, n, cols)[i])]
  {
    hide Slab, SlabFits, Spliced, SameOutside;
    SlabRow(data[..], first, n, cols, i);
    SlabRow(extra[..], 0, used + 1, cols, used);
    SpliceOutside(extra[..], 0, used + 1, cols, used, data[(first + i) * cols..(first + i) * cols + cols]);
    MemCopy(extra, used * cols, data, (first + i) * cols, cols);
  }

  /** skippableCopy of row "from" of the position over row i. */
  method SkipCopyRow<T(==)>(data: array<T>, first: nat, n: nat, i: nat, from: nat, cols: nat, word: nat)
    requires i < n && from < n && i != from && word <= cols
    requires SlabFits(data[..], first, n, cols)
    modifies data
    ensures SlabFits(data[..], first, n, cols) && SameOutside(old(data[..]), data[..], first, n, cols)
    ensures var s := old(Slab(data[..], first, n, cols));
      Slab(data[..], first, n, cols) == s[i := Copied(SameWord(word), s[i], s[from])]
  {
    hide Slab, SlabFits, Spliced, SameOutside, SameWord;
    ghost var a := data[..];
    var x, y := (first + i) * cols, (first + from) * cols;
    CopyFacts(a, first, n, cols, i, from, x, y, word);
    SkippableCopy(data, x, data, y, cols, word);
  }

  lemma CopyFacts<T>(a: seq<T>, first: nat, n: nat, cols: nat, i: nat, from: nat, x: nat, y: nat, word: nat)
    requires i < n && from < n && i != from && SlabFits(a, first, n, cols)
    requires x == (first + i) * cols && y == (first + from) * cols
    ensures x + cols <= |a| && y + cols <= |a| && (x + cols <= y || y + cols <= x)
    ensures var s := Slab(a, first, n, cols);
      var row := Copied(SameWord(word), a[x..x + cols], a[y..y + cols]);
      && SameOutside(a, Spliced(a, x, row), first, n, cols) && SlabFits(Spliced(a, x, row), first, n, cols)
      && Slab(Spliced(a, x, row), first, n, cols) == s[i := Copied(SameWord(word), s[i], s[from])]
  {
    hide Slab, SlabFits, Spliced, SameOutside, SameWord;
    SlabRow(a, first, n, cols, i);
    SlabRow(a, first, n, cols, from);
    RowsApart(first + i, first + from, cols);
    SpliceOutside(a, first, n, cols, i, Copied(SameWord(word), a[x..x + cols], a[y..y + cols]));
  }

  /** skippableCopy of a spill slot over row i. */
  method SkipCopySaved<T(==)>(data: array<T>, first: nat, n: nat, i: nat, extra: array<T>, used: nat, slot: nat,
                         cols: nat, word: nat)
    requires i < n && slot < used && word <= cols && data != extra
    requires SlabFits(data[..], first, n, cols) && SlabFits(extra[..], 0, used, cols)
    modifies data
    ensures SlabFits(data[..], first, n, cols) && SameOutside(old(data[..]), data[..], first, n, cols)
    ensures var s := old(Slab(data[..], first, n, cols));
      Slab(data[..], first, n, cols) == s[i := Copied(SameWord(word), s[i], old(Slab(extra[..], 0, used, cols)[slot]))]
  {
    hide Slab, SlabFits, Spliced, SameOutside, SameWord;
    SlabRow(data[..], first, n, cols, i);
    SlabRow(extra[..], 0, used, cols, slot);
    ghost var a := data[..];
    ghost var s := Slab(a, first, n, cols);
    ghost var row := Copied(SameWord(word), s[i], Slab(extra[..], 0, used, cols)[slot]);
    SpliceOutside(a, first, n, cols, i, row);
    SkippableCopy(data, (first + i) * cols, extra, slot * cols, cols, word);
    assert data[..] == Spliced(a, (first + i) * cols, row);
  }

  method SwapRows<T>(data: array<T>, first: nat, n: nat, i: nat, from: nat, cols: nat, lanes: nat)
    requires i < from < n && 0 < lanes
    requires SlabFits(data[..], first, n, cols)
    modifies data
    ensures SlabFits(data[..], first, n, cols) && SameOutside(old(data[..]), data[..], first, n, cols)
    ensures var s := old(Slab(data[..], first, n, cols));
      Slab(data[..], first, n, cols) == s[i := s[from]][from := s[i]]
  {
    hide Slab, Spliced, Swapped;
    ghost var a := data[..];
    ghost var s := Slab(a, first, n, cols);
    SlabRow(a, first, n, cols, i);
    SlabRow(a, first, n, cols, from);
    RowsApart(first + i, first + from, cols);
    SwappedIsTwoSplices(a, (first + i) * cols, (first + from) * cols, cols);
    SpliceOutside(a, first, n, cols, i, s[from]);
    SpliceOutside(Spliced(a, (first + i) * cols, s[from]), first, n, cols, from, s[i]);
    SwapValues(data, (first + i) * cols, (first + from) * cols, cols, lanes);
  }

  /** The table of names is neither the tensor nor the spill buffer. */
  ghost predicate Unaliased<T>(data: array<T>, extra: array<T>, remapped: array<int>) {
    data as object != remapped && extra as object != remapped
  }

  /** If a later beam still wants row i, save it and rename the row in what is left of the table. */
  method SaveIfWanted<T>(data: array<T>, extra: array<T>, remapped: array<int>, first: nat, i: nat, used: nat,
                         cols: nat)
    returns (used': nat)
    requires data != extra && Unaliased(data, extra, remapped) && i < remapped.Length
    requires SlabFits(data[..], first, remapped.Length, cols) && SlabFits(extra[..], 0, remapped.Length - 1, cols)
    requires used <= i && SlabFits(extra[..], 0, used, cols)
    modifies extra, remapped
    ensures used <= used' <= i + 1 && used' <= remapped.Length - 1 && SlabFits(extra[..], 0, used', cols)
    ensures SlabFits(extra[..], 0, remapped.Length - 1, cols)
    ensures View(data[..], extra[..], remapped[..], first, used', cols) ==
      old(Save(View(data[..], extra[..], remapped[..], first, used, cols), i))
  {
    hide Slab, Replace;
    used' := used;
    var wanted := ValueExist(remapped, i + 1, i);
    if wanted {
      Arith.MulMono(used + 1, remapped.Length - 1, cols);
      ghost var rows, saved := Slab(data[..], first, remapped.Length, cols), Slab(extra[..], 0, used, cols);
      SlabPrefix(extra[..], used, cols);
      SaveRow(extra, used, data, first, remapped.Length, i, cols);
      SlabPrefix(extra[..], used, cols);
      assert Slab(extra[..], 0, used + 1, cols) == saved + [rows[i]];
      ReplaceIn(remapped, i + 1, i, used - remapped.Length);
      used' := used + 1;
    }
  }

  lemma SlabPrefix<T>(buf: seq<T>, n: nat, cols: nat)
    requires SlabFits(buf, 0, n + 1, cols)
    ensures SlabFits(buf, 0, n, cols)
    ensures Slab(buf, 0, n, cols) == Slab(buf, 0, n + 1, cols)[..n]
  {
    Arith.MulMono(n, n + 1, cols);
  }

  /** One turn of the loop over beams. */
  method ReorderRow<T(==)>(data: array<T>, extra: array<T>, remapped: array<int>, first: nat, i: nat, used: nat,
                           cols: nat, word: nat, lanes: nat)
    returns (used': nat)
    requires data != extra && Unaliased(data, extra, remapped) && i < remapped.Length && word <= cols && 0 < lanes
    requires SlabFits(data[..], first, remapped.Length, cols) && SlabFits(extra[..], 0, remapped.Length - 1, cols)
    requires SlabFits(extra[..], 0, used, cols)
    requires used <= remapped.Length - 1
    requires WellFormed(View(data[..], extra[..], remapped[..], first, used, cols), i)
    modifies data, extra, remapped
    ensures used' <= remapped.Length - 1 && SlabFits(extra[..], 0, used', cols)
    ensures SlabFits(extra[..], 0, remapped.Length - 1, cols)
    ensures SlabFits(data[..], first, remapped.Length, cols)
      && SameOutside(old(data[..]), data[..], first, remapped.Length, cols)
    ensures View(data[..], extra[..], remapped[..], first, used', cols) ==
      old(Step(View(data[..], extra[..], remapped[..], first, used, cols), i, SameWord(word)))
  {
    hide Slab, SlabFits, Replace, Exchange, SameWord;
    var n := remapped.Length;
    var from := remapped[i];
    used' := used;
    ghost var m := View(data[..], extra[..], remapped[..], first, used, cols);
    if from < i {
      used' := SaveIfWanted(data, extra, remapped, first, i, used, cols);
      if from < 0 {
        SkipCopySaved(data, first, n, i, extra, used', from + n, cols, word);
      } else {
        SkipCopyRow(data, first, n, i, from, cols, word);
      }
    } else if from > i {
      if remapped[from] == i {
        SwapRows(data, first, n, i, from, cols, lanes);
        ExchangeIn(remapped, i + 1, i, from);
      } else {
        used' := SaveIfWanted(data, extra, remapped, first, i, used, cols);
        SkipCopyRow(data, first, n, i, from, cols, word);
        ReplaceIn(remapped, i + 1, from, i);
      }
    }
  }

  lemma StartView<T>(data: seq<T>, extra: seq<T>, idx: seq<int>, first: nat, cols: nat, same: (seq<T>, seq<T>) -> bool)
    requires GoodIndex(idx) && SlabFits(data, first, |idx|, cols)
    ensures SlabFits(extra, 0, 0, cols) && SameOutside(data, data, first, |idx|, cols)
    ensures View(data, extra, idx, first, 0, cols) == Run(Slab(data, first, |idx|, cols), idx, 0, same)
  {
    assert SlabFits(extra, 0, 0, cols);
    hide SlabFits;
  }

  lemma ViewRows<T>(data: seq<T>, extra: seq<T>, remap: seq<int>, first: nat, used: nat, cols: nat)
    requires SlabFits(data, first, |remap|, cols) && SlabFits(extra, 0, used, cols)
    ensures View(data, extra, remap, first, used, cols).rows == Slab(data, first, |remap|, cols)
    ensures View(data, extra, remap, first, used, cols).remap == remap
  {
  }

  lemma SameOutsideSelf<T>(a: seq<T>, first: nat, n: nat, cols: nat)
    ensures SameOutside(a, a, first, n, cols)
  {
  }

  lemma SameOutsideThen<T>(a: seq<T>, b: seq<T>, c: seq<T>, first: nat, n: nat, cols: nat)
    requires SameOutside(a, b, first, n, cols) && SameOutside(b, c, first, n, cols)
    ensures SameOutside(a, c, first, n, cols)
  {
  }

  /** Reorder one sequence position: the B rows that start at row "first". */
  method ReorderPosition<T(==)>(data: array<T>, extra: array<T>, idx: seq<int>, first: nat, cols: nat, word: nat,
                           lanes: nat)
    requires data != extra && 0 < |idx| && word <= cols && 0 < lanes && GoodIndex(idx)
    requires SlabFits(data[..], first, |idx|, cols) && SlabFits(extra[..], 0, |idx| - 1, cols)
    modifies data, extra
    ensures SlabFits(data[..], first, |idx|, cols) && SameOutside(old(data[..]), data[..], first, |idx|, cols)
    ensures Slab(data[..], first, |idx|, cols)
      == Run(old(Slab(data[..], first, |idx|, cols)), idx, |idx|, SameWord(word)).rows
  {
    hide Slab, SlabFits, SameWord, Step, GoodIndex, Run, WellFormed, View, SameOutside;
    ghost var a, rows := data[..], Slab(data[..], first, |idx|, cols);
    StartView(a, extra[..], idx, first, cols, SameWord(word));
    var remapped := new int[|idx|](k requires 0 <= k < |idx| => idx[k]);
    assert remapped[..] == idx;
    var used: nat := 0;
    for i := 0 to |idx|
      invariant used <= |idx| - 1 && SlabFits(extra[..], 0, used, cols) && SlabFits(extra[..], 0, |idx| - 1, cols)
      invariant SlabFits(data[..], first, |idx|, cols) && SameOutside(a, data[..], first, |idx|, cols)
      invariant View(data[..], extra[..], remapped[..], first, used, cols) == Run(rows, idx, i, SameWord(word))
    {
      ghost var b := data[..];
      used := ReorderRow(data, extra, remapped, first, i, used, cols, word, lanes);
      SameOutsideThen(a, b, data[..], first, |idx|, cols);
      RunNext(rows, idx, i, SameWord(word));
      assert remapped.Length == |idx|;
    }
    ViewRows(data[..], extra[..], remapped[..], first, used, cols);
  }

  lemma ElementAddr(r: nat, headNum: nat, h: nat, headSize: nat, e: nat)
    ensures r * (headNum * headSize) + (h * headSize + e) == (r * headNum + h) * headSize + e
  {
  }

  // ---------- the tensor ----------

  /** What expanding does to the rows of a position: beam b gets the row of sample b / beamSize. */
  function Expand<R>(rows: seq<R>, beamSize: nat): (r: seq<R>)
    requires 0 < beamSize
    ensures |r| == |rows|
  {
    seq(|rows|, b requires 0 <= b < |rows| => (Arith.DivLe(b, beamSize); rows[b / beamSize]))
  }

  lemma ExpandAt<R>(rows: seq<R>, beamSize: nat, b: nat)
    requires 0 < beamSize && b < |rows|
    ensures 0 <= b / beamSize <= b && Expand(rows, beamSize)[b] == rows[b / beamSize]
  {
    Arith.DivLe(b, beamSize);
  }

  /** Beam b of a position has the row of sample b / beamSize. */
  ghost predicate IsBroadcast<R>(position: seq<R>, rows: seq<R>, beamSize: nat)
    requires 0 < beamSize
  {
    && |position| == |rows|
    && forall b :: 0 <= b < |rows| ==> b / beamSize < |rows| && position[b] == rows[b / beamSize]
  }

  /** Rows sample * beamSize to sample * beamSize + beamSize - 1 are copies of row "sample". */
  lemma BroadcastBeam<R>(position: seq<R>, rows: seq<R>, beamSize: nat, sample: nat, beam: nat)
    requires 0 < beamSize && IsBroadcast(position, rows, beamSize)
    requires beam < beamSize && sample * beamSize + beam < |rows|
    ensures sample < |rows| && 0 <= sample * beamSize && position[sample * beamSize + beam] == rows[sample]
  {
    Arith.DivMod(sample, beamSize, beam);
    Arith.MulMono(0, sample, beamSize);
  }

  lemma ExpandIsBroadcast<R>(rows: seq<R>, beamSize: nat)
    requires 0 < beamSize
    ensures IsBroadcast(Expand(rows, beamSize), rows, beamSize)
  {
    hide Expand;
    forall b | 0 <= b < |rows|
      ensures b / beamSize < |rows| && Expand(rows, beamSize)[b] == rows[b / beamSize]
    {
      ExpandAt(rows, beamSize, b);
    }
  }

  lemma ExpandFirst<R>(rows: seq<R>, beamSize: nat)
    requires 0 < beamSize
    ensures |rows| > 0 ==> Expand(rows, beamSize)[0] == rows[0]
  {
    if |rows| > 0 {
      ExpandAt(rows, beamSize, 0);
    }
  }

  /** The same row for the first n samples of a position. */
  function Filled<R>(rows: seq<R>, n: nat, row: R): (r: seq<R>)
    ensures |r| == |rows| && forall b :: 0 <= b < |rows| ==> r[b] == if b < n then row else rows[b]
  {
    seq(|rows|, b requires 0 <= b < |rows| => if b < n then row else rows[b])
  }

  /** Every beam of every sample that was filled gets the row when the samples are expanded to beams. */
  lemma FilledThenExpanded<R>(rows: seq<R>, n: nat, row: R, beamSize: nat, b: nat)
    requires 0 < beamSize && b < |rows| && b < n * beamSize
    ensures Expand(Filled(rows, n, row), beamSize)[b] == row
  {
    Arith.DivLe(b, beamSize);
    Arith.Swap(n, beamSize);
    Arith.QuotientBelow(b, beamSize, n);
  }

  /** The in-place broadcast of one position: from the last beam down, so that a sample is read before
      it is overwritten. */
  method Broadcast<T>(data: array<T>, first: nat, n: nat, cols: nat, beamSize: nat)
    requires SlabFits(data[..], first, n, cols) && 0 < beamSize
    modifies data
    ensures SlabFits(data[..], first, n, cols) && SameOutside(old(data[..]), data[..], first, n, cols)
    ensures Slab(data[..], first, n, cols) == Expand(old(Slab(data[..], first, n, cols)), beamSize)
  {
    hide Slab, SlabFits, SameOutside, Expand;
    ghost var was, rows := data[..], Slab(data[..], first, n, cols);
    SameOutsideSelf(was, first, n, cols);
    ExpandFirst(rows, beamSize);
    var b := n - 1;
    while b > 0
      invariant -1 <= b < n
      invariant SlabFits(data[..], first, n, cols) && SameOutside(was, data[..], first, n, cols)
      invariant forall k :: 0 <= k <= b ==> Slab(data[..], first, n, cols)[k] == rows[k]
      invariant forall k :: b < k < n ==> Slab(data[..], first, n, cols)[k] == Expand(rows, beamSize)[k]
    {
      Arith.DivLe(b, beamSize);
      ExpandAt(rows, beamSize, b);
      ghost var before := data[..];
      CopyRow(data, first, n, b, b / beamSize, cols);
      SameOutsideThen(was, before, data[..], first, n, cols);
      b := b - 1;
    }
  }

  /** The rows of token position s. */
  ghost function PositionOf<T>(buf: seq<T>, s: nat, B: nat, cols: nat): (rows: seq<seq<T>>)
    requires SlabFits(buf, s * B, B, cols)
    ensures |rows| == B
  {
    Slab(buf, s * B, B, cols)
  }

  lemma PositionFits<T>(buf: seq<T>, s: nat, n: nat, B: nat, cols: nat)
    requires s < n && (n * B) * cols <= |buf|
    ensures SlabFits(buf, s * B, B, cols)
  {
    Arith.MulMono(s + 1, n, B);
    Arith.MulMono(s * B + B, n * B, cols);
  }

  /** Changing one position leaves every other position alone. */
  lemma OtherPosition<T>(a: seq<T>, b: seq<T>, s: nat, t: nat, B: nat, cols: nat)
    requires s != t && SlabFits(a, s * B, B, cols) && SlabFits(a, t * B, B, cols)
    requires SameOutside(a, b, s * B, B, cols)
    ensures PositionOf(b, t, B, cols) == PositionOf(a, t, B, cols)
  {
    assert |a| == |b|;
    hide Slab, SameOutside;
    forall k | 0 <= k < B
      ensures PositionOf(b, t, B, cols)[k] == PositionOf(a, t, B, cols)[k]
    {
      var x := (t * B + k) * cols;
      SlabRow(a, t * B, B, cols, k);
      SlabRow(b, t * B, B, cols, k);
      OutsideRun(s, t, B, cols, k, x);
      SameRun(a, b, s * B, B, cols, x);
    }
  }

  lemma SameRun<T>(a: seq<T>, b: seq<T>, first: nat, n: nat, cols: nat, x: nat)
    requires SameOutside(a, b, first, n, cols) && x + cols <= |a|
    requires x + cols <= first * cols || (first + n) * cols <= x
    ensures a[x..x + cols] == b[x..x + cols]
  {
  }

  lemma OutsideRun(s: nat, t: nat, B: nat, cols: nat, k: nat, x: nat)
    requires s != t && k < B && x == (t * B + k) * cols
    ensures x + cols <= s * B * cols || (s * B + B) * cols <= x
  {
    if s < t {
      Arith.MulMono(s + 1, t, B);
      Arith.MulMono(s * B + B, t * B + k, cols);
    } else {
      Arith.MulMono(t + 1, s, B);
      Arith.MulMono(t * B + k + 1, s * B, cols);
      RowStarts(t * B + k, cols);
    }
  }

  class KVCacheTensor<T(==,0)> {
    /** how many elements eight bytes hold; a 512-bit vector holds eight times as many */
    const word: nat
    var maxSeqLen: nat
    var batchSize: nat
    var headNum: nat
    var headSize: nat
    var data: array<T>
    var allocSize: nat
    var scales: array<real>

    ghost predicate Valid()
      reads this
    {
      && 0 < word
      && allocSize == data.Length
      && GetShape().Size() <= allocSize
      && scales.Length == GetShape().ScaleCount()
    }

    function GetShape(): Shape
      reads this
    {
      Shape(maxSeqLen, batchSize, headNum, headSize)
    }

    function Cols(): nat
      reads this
    {
      headNum * headSize
    }

    constructor (word: nat)
      requires 0 < word
      ensures Valid() && this.word == word
      ensures GetShape() == Shape(0, 0, 0, 0) && allocSize == 0 && fresh(data) && fresh(scales)
    {
      this.word := word;
      maxSeqLen, batchSize, headNum, headSize := 0, 0, 0, 0;
      data := new T[0];
      allocSize := 0;
      scales := new real[0];
    }

    /** The buffer only ever grows; the scales are always allocated anew. */
    method Resize(maxSeqLen: nat, batchSize: nat, headNum: nat, headSize: nat)
      requires Valid()
      modifies this
      ensures Valid()
      ensures GetShape() == Shape(maxSeqLen, batchSize, headNum, headSize)
      ensures fresh(scales)
      ensures if GetShape().Size() > old(allocSize)
        then fresh(data) && allocSize == GetShape().Size()
        else data == old(data) && allocSize == old(allocSize)
      ensures allocSize >= maxSeqLen * batchSize * headNum * headSize && allocSize >= old(allocSize)
      ensures allocSize == maxSeqLen * batchSize * headNum * headSize || allocSize == old(allocSize)
      ensures scales.Length == maxSeqLen * batchSize * headNum
    {
      this.maxSeqLen := maxSeqLen;
      this.batchSize := batchSize;
      this.headNum := headNum;
      this.headSize := headSize;
      var requiredSize := maxSeqLen * batchSize * headNum * headSize;
      if requiredSize > allocSize {
        data := new T[requiredSize];
        allocSize := requiredSize;
      }
      scales := new real[maxSeqLen * batchSize * headNum];
    }

    /** The rows of token position s, one per beam, in the [seq, batch, head, size] layout. */
    ghost function Position(s: nat): (rows: seq<seq<T>>)
      requires Valid() && s < maxSeqLen
      reads this, data
      ensures |rows| == batchSize
    {
      RowAddr(GetShape(), 0, 0);
      PositionFits(data[..], s, maxSeqLen, batchSize, Cols());
      PositionOf(data[..], s, batchSize, Cols())
    }

    /** Where the elements of a position are: head h of beam b at token s is a run of headSize elements. */
    lemma PositionElement(s: nat, b: nat, h: nat, e: nat)
      requires Valid() && s < maxSeqLen && b < batchSize && h < headNum && e < headSize
      ensures 0 <= ((s * batchSize + b) * headNum + h) * headSize + e < data.Length
      ensures h * headSize + e < |Position(s)[b]| == headNum * headSize
      ensures Position(s)[b][h * headSize + e] == data[((s * batchSize + b) * headNum + h) * headSize + e]
    {
      hide Slab;
      var cols := headNum * headSize;
      RowAddr(GetShape(), 0, 0);
      PositionFits(data[..], s, maxSeqLen, batchSize, cols);
      SlabRow(data[..], s * batchSize, batchSize, cols, b);
      Arith.CellInRange(h, e, headNum, headSize);
      ElementAddr(s * batchSize + b, headNum, h, headSize, e);
    }

    /** All token positions. */
    ghost function Cache(): (c: seq<seq<seq<T>>>)
      requires Valid()
      reads this, data
      ensures |c| == maxSeqLen && forall t :: 0 <= t < maxSeqLen ==> c[t] == Position(t) && |c[t]| == batchSize
    {
      seq(maxSeqLen, t requires 0 <= t < maxSeqLen && Valid() reads this, data => Position(t))
    }

    /** Store the rows of one new token, one row per beam. */
    method StoreToken(s: nat, rows: seq<seq<T>>)
      requires Valid() && s < maxSeqLen && |rows| == batchSize
      requires forall b :: 0 <= b < |rows| ==> |rows[b]| == Cols()
      modifies data
      ensures Valid() && Cache() == old(Cache())[s := rows]
    {
      hide Slab;
      var cols := headNum * headSize;
      RowAddr(GetShape(), 0, 0);
      PositionFits(data[..], s, maxSeqLen, batchSize, cols);
      ghost var a := data[..];
      StoreRows(data, s * batchSize, rows, cols);
      forall t | 0 <= t < maxSeqLen && t != s
        ensures Position(t) == old(Position(t))
      {
        PositionFits(a, t, maxSeqLen, batchSize, cols);
        OtherPosition(a, data[..], s, t, batchSize, cols);
      }
    }

    /** Store one row for the first userSideBS samples of a token position, the last sample first. */
    method FillPosition(s: nat, userSideBS: nat, row: seq<T>)
      requires Valid() && s < maxSeqLen && userSideBS <= batchSize && |row| == Cols()
      modifies data
      ensures Valid()
      ensures forall t :: 0 <= t < maxSeqLen ==>
        Position(t) == (if t == s then Filled(old(Position(t)), userSideBS, row) else old(Position(t)))
    {
      hide Slab, Filled;
      var cols := headNum * headSize;
      RowAddr(GetShape(), 0, 0);
      PositionFits(data[..], s, maxSeqLen, batchSize, cols);
      ghost var a := data[..];
      FillRows(data, s * batchSize, batchSize, userSideBS, row, cols);
      forall t | 0 <= t < maxSeqLen && t != s
        ensures Position(t) == old(Position(t))
      {
        PositionFits(a, t, maxSeqLen, batchSize, cols);
        OtherPosition(a, data[..], s, t, batchSize, cols);
      }
    }

    /** The row of sample 0 at a token position, as getSequence finds it. */
    method FirstRow(s: nat) returns (row: seq<T>)
      requires Valid() && s < maxSeqLen && 0 < batchSize
      ensures |row| == Cols() && row == Position(s)[0]
    {
      hide Slab;
      var cols := headNum * headSize;
      RowAddr(GetShape(), 0, 0);
      PositionFits(data[..], s, maxSeqLen, batchSize, cols);
      SlabRow(data[..], s * batchSize, batchSize, cols, 0);
      var x := (s * batchSize + 0) * cols;
      row := data[x..x + cols];
    }

    /** Broadcast each sample of one token position to its beams, in place, last beam first. */
    method ExpandOneSequence(kvTrans: bool, userSideBS: nat, beamSize: nat, s: nat) returns (supported: bool)
      requires Valid() && s < maxSeqLen && 0 < beamSize
      modifies data
      ensures Valid() && supported == !kvTrans
      ensures forall t :: 0 <= t < maxSeqLen ==>
        Position(t) == (if supported && t == s then Expand(old(Position(t)), beamSize) else old(Position(t)))
      ensures supported ==> IsBroadcast(Position(s), old(Position(s)), beamSize)
    {
      if kvTrans {
        return false;
      }
      hide Slab, Expand, IsBroadcast;
      var cols := headNum * headSize;
      RowAddr(GetShape(), 0, 0);
      PositionFits(data[..], s, maxSeqLen, batchSize, cols);
      ghost var a := data[..];
      Broadcast(data, s * batchSize, batchSize, cols, beamSize);
      ExpandIsBroadcast(old(Position(s)), beamSize);
      forall t | 0 <= t < maxSeqLen && t != s
        ensures Position(t) == old(Position(t))
      {
        PositionFits(a, t, maxSeqLen, batchSize, cols);
        OtherPosition(a, data[..], s, t, batchSize, cols);
      }
      supported := true;
    }

    /** Gather the beams of the token positions [initSeqLen, accSeqLen) by idx, in place.  A position
        comes out gathered exactly when no skipped copy joined two different rows. */
    method Reorder(idx: seq<int>, size: nat, initSeqLen: nat, accSeqLen: nat)
      requires Valid() && accSeqLen <= maxSeqLen
      requires 0 < batchSize <= |idx| && GoodIndex(idx[..batchSize])
      requires word <= Cols()
      modifies data
      ensures Valid()
      ensures forall t, k :: initSeqLen <= t < accSeqLen && 0 <= k < batchSize && TellsApart(old(Position(t)), word) ==>
        Position(t)[k] == old(Position(t))[idx[k]]
      ensures forall t :: 0 <= t < maxSeqLen && !(initSeqLen <= t < accSeqLen) ==> Position(t) == old(Position(t))
      ensures forall t :: initSeqLen <= t < accSeqLen ==>
        Position(t) == Run(old(Position(t)), idx[..batchSize], batchSize, SameWord(word)).rows
      ensures forall t :: initSeqLen <= t < accSeqLen ==>
        (IsGather(Position(t), old(Position(t)), idx[..batchSize])
         <==> AllSafe(old(Position(t)), idx[..batchSize], SameWord(word)))
    {
      hide Run, SameWord, Position, IsGather, AllSafe, TellsApart, Valid, GoodIndex;
      var extraKeyBuf := NewSpill();
      ReorderRange(idx[..batchSize], initSeqLen, accSeqLen, extraKeyBuf);
      forall t | initSeqLen <= t < accSeqLen
        ensures IsGather(Position(t), old(Position(t)), idx[..batchSize])
          <==> AllSafe(old(Position(t)), idx[..batchSize], SameWord(word))
        ensures TellsApart(old(Position(t)), word) ==>
          forall k :: 0 <= k < batchSize ==> 0 <= idx[k] < batchSize && Position(t)[k] == old(Position(t))[idx[k]]
      {
        ReorderedRows(old(Position(t)), Position(t), idx, batchSize, word);
      }
    }

    /** The spill buffer: room for all rows but one. */
    method NewSpill() returns (extraKeyBuf: array<T>)
      requires Valid() && 0 < batchSize
      ensures fresh(extraKeyBuf) && SlabFits(extraKeyBuf[..], 0, batchSize - 1, Cols())
    {
      extraKeyBuf := new T[(batchSize - 1) * (headNum * headSize)];
    }

    /** The loop over token positions. */
    method ReorderRange(idx: seq<int>, initSeqLen: nat, accSeqLen: nat, extraKeyBuf: array<T>)
      requires Valid() && accSeqLen <= maxSeqLen && extraKeyBuf != data
      requires 0 < batchSize == |idx| && GoodIndex(idx) && word <= Cols()
      requires SlabFits(extraKeyBuf[..], 0, batchSize - 1, Cols())
      modifies data, extraKeyBuf
      ensures Valid()
      ensures forall t :: 0 <= t < maxSeqLen && !(initSeqLen <= t < accSeqLen) ==> Position(t) == old(Position(t))
      ensures forall t :: initSeqLen <= t < accSeqLen ==>
        Position(t) == Run(old(Position(t)), idx, batchSize, SameWord(word)).rows
    {
      hide Run, SameWord, Position, Valid, SlabFits;
      var seqIdx := initSeqLen;
      while seqIdx < accSeqLen
        invariant initSeqLen <= seqIdx <= (if initSeqLen <= accSeqLen then accSeqLen else initSeqLen)
        invariant SlabFits(extraKeyBuf[..], 0, batchSize - 1, Cols())
        invariant forall t :: 0 <= t < maxSeqLen && !(initSeqLen <= t < seqIdx) ==> Position(t) == old(Position(t))
        invariant forall t :: initSeqLen <= t < seqIdx && t < maxSeqLen ==>
          Position(t) == Run(old(Position(t)), idx, batchSize, SameWord(word)).rows
      {
        ReorderOne(idx, seqIdx, extraKeyBuf);
        seqIdx := seqIdx + 1;
      }
    }

    /** The body of the loop over token positions. */
    method ReorderOne(idx: seq<int>, s: nat, extraKeyBuf: array<T>)
      requires Valid() && s < maxSeqLen && extraKeyBuf != data
      requires 0 < batchSize == |idx| && GoodIndex(idx) && word <= Cols()
      requires SlabFits(extraKeyBuf[..], 0, batchSize - 1, Cols())
      modifies data, extraKeyBuf
      ensures Valid()
      ensures forall t :: 0 <= t < maxSeqLen && t != s ==> Position(t) == old(Position(t))
      ensures Position(s) == Run(old(Position(s)), idx, batchSize, SameWord(word)).rows
      ensures SlabFits(extraKeyBuf[..], 0, batchSize - 1, Cols())
    {
      hide Slab, Run, SameWord;
      var cols := headNum * headSize;
      RowAddr(GetShape(), 0, 0);
      PositionFits(data[..], s, maxSeqLen, batchSize, cols);
      ghost var a := data[..];
      ReorderPosition(data, extraKeyBuf, idx, s * batchSize, cols, word, 8 * word);
      forall t | 0 <= t < maxSeqLen && t != s
        ensures Position(t) == old(Position(t))
      {
        PositionFits(a, t, maxSeqLen, batchSize, cols);
        OtherPosition(a, data[..], s, t, batchSize, cols);
      }
    }
  }

  method FillRows<T>(data: array<T>, first: nat, n: nat, userSideBS: nat, row: seq<T>, cols: nat)
    requires SlabFits(data[..], first, n, cols) && userSideBS <= n && |row| == cols
    modifies data
    ensures SlabFits(data[..], first, n, cols) && SameOutside(old(data[..]), data[..], first, n, cols)
    ensures Slab(data[..], first, n, cols) == Filled(old(Slab(data[..], first, n, cols)), userSideBS, row)
  {
    hide Slab, SlabFits, SameOutside, Filled;
    ghost var was, rows := data[..], Slab(data[..], first, n, cols);
    SameOutsideSelf(was, first, n, cols);
    var b := userSideBS - 1;
    while b >= 0
      invariant -1 <= b < userSideBS
      invariant SlabFits(data[..], first, n, cols) && SameOutside(was, data[..], first, n, cols)
      invariant forall k :: 0 <= k < n ==>
        Slab(data[..], first, n, cols)[k] == if b < k < userSideBS then row else rows[k]
    {
      ghost var before := data[..];
      StoreRow(data, first, n, b, row, cols);
      SameOutsideThen(was, before, data[..], first, n, cols);
      b := b - 1;
    }
  }

  /** memcpy of row "from" of a position over row i. */
  method CopyRow<T>(data: array<T>, first: nat, n: nat, i: nat, from: nat, cols: nat)
    requires i < n && from < n && SlabFits(data[..], first, n, cols)
    modifies data
    ensures SlabFits(data[..], first, n, cols) && SameOutside(old(data[..]), data[..], first, n, cols)
    ensures Slab(data[..], first, n, cols)
      == old(Slab(data[..], first, n, cols)[i := Slab(data[..], first, n, cols)[from]])
  {
    hide Slab, SlabFits, Spliced, SameOutside;
    var x, y := (first + i) * cols, (first + from) * cols;
    PlainCopyFacts(data[..], first, n, cols, i, from, x, y);
    MemCopy(data, x, data, y, cols);
  }

  lemma PlainCopyFacts<T>(a: seq<T>, first: nat, n: nat, cols: nat, i: nat, from: nat, x: nat, y: nat)
    requires i < n && from < n && SlabFits(a, first, n, cols)
    requires x == (first + i) * cols && y == (first + from) * cols
    ensures x + cols <= |a| && y + cols <= |a| && (x == y || x + cols <= y || y + cols <= x)
    ensures SameOutside(a, Spliced(a, x, a[y..y + cols]), first, n, cols)
    ensures SlabFits(Spliced(a, x, a[y..y + cols]), first, n, cols)
    ensures var s := Slab(a, first, n, cols); Slab(Spliced(a, x, a[y..y + cols]), first, n, cols) == s[i := s[from]]
  {
    hide Slab, SlabFits, Spliced, SameOutside;
    SlabRow(a, first, n, cols, i);
    SlabRow(a, first, n, cols, from);
    if i != from {
      RowsApart(first + i, first + from, cols);
    }
    SpliceOutside(a, first, n, cols, i, a[y..y + cols]);
  }

  method StoreRows<T>(data: array<T>, first: nat, rows: seq<seq<T>>, cols: nat)
    requires SlabFits(data[..], first, |rows|, cols)
    requires forall b :: 0 <= b < |rows| ==> |rows[b]| == cols
    modifies data
    ensures SlabFits(data[..], first, |rows|, cols) && SameOutside(old(data[..]), data[..], first, |rows|, cols)
    ensures Slab(data[..], first, |rows|, cols) == rows
  {
    hide Slab, SlabFits, SameOutside;
    ghost var was := data[..];
    SameOutsideSelf(was, first, |rows|, cols);
    for b := 0 to |rows|
      invariant SlabFits(data[..], first, |rows|, cols)
      invariant SameOutside(was, data[..], first, |rows|, cols)
      invariant forall k :: 0 <= k < b ==> Slab(data[..], first, |rows|, cols)[k] == rows[k]
    {
      ghost var before := data[..];
      StoreRow(data, first, |rows|, b, rows[b], cols);
      SameOutsideThen(was, before, data[..], first, |rows|, cols);
    }
  }

  /** Copy one row into the tensor. */
  method StoreRow<T>(data: array<T>, first: nat, n: nat, i: nat, row: seq<T>, cols: nat)
    requires i < n && |row| == cols && SlabFits(data[..], first, n, cols)
    modifies data
    ensures SlabFits(data[..], first, n, cols) && SameOutside(old(data[..]), data[..], first, n, cols)
    ensures Slab(data[..], first, n, cols) == old(Slab(data[..], first, n, cols))[i := row]
  {
    hide Slab, SlabFits, Spliced, SameOutside;
    SlabRow(data[..], first, n, cols, i);
    SpliceOutside(data[..], first, n, cols, i, row);
    Store(data, (first + i) * cols, row);
  }

  ghost predicate Blank<T(0)>(tensor: KVCacheTensor<T>, word: nat)
    reads tensor
  {
    tensor.Valid() && tensor.word == word && tensor.GetShape() == Shape(0, 0, 0, 0)
  }

  /** An array of tensors, each with a buffer of its own. */
  method NewTensors<T(==,0)>(count: nat, word: nat) returns (tensors: seq<KVCacheTensor<T>>)
    requires 0 < word
    ensures |tensors| == count
    ensures forall i :: 0 <= i < count ==> fresh(tensors[i]) && fresh(tensors[i].data) && Blank(tensors[i], word)
    ensures forall i, j :: 0 <= i < j < count ==> tensors[i] != tensors[j] && tensors[i].data != tensors[j].data
  {
    tensors := [];
    for i := 0 to count
      invariant |tensors| == i
      invariant forall k :: 0 <= k < i ==> fresh(tensors[k]) && fresh(tensors[k].data) && Blank(tensors[k], word)
      invariant forall k, l :: 0 <= k < l < i ==> tensors[k] != tensors[l] && tensors[k].data != tensors[l].data
    {
      var tensor := new KVCacheTensor<T>(word);
      tensors := tensors + [tensor];
    }
  }
}
