/** The bounded heap that keeps the best entries of a sparse similarity vector,
    and the routine that appends feedback or tag ids to such a vector.

    Weights are exact reals (NaN is outside the model). Vector indices are
    32-bit unsigned integers and wrap around on addition. */
module SparsePruner {
  const MAX_SPARSE_VECTOR_NNZ: nat := 1024
  const UINT32_SIZE: nat := 0x1_0000_0000

  type int32 = x: int | -0x8000_0000 <= x < 0x8000_0000

  datatype Entry = Entry(index: nat, value: real)

  /** The heap order: `a` is dropped before `b`. */
  predicate Worse(a: Entry, b: Entry) {
    if a.value == b.value then a.index > b.index else a.value < b.value
  }

  /** The parent of a heap slot; Go truncates (0 - 1) / 2 to 0. */
  function Parent(j: nat): nat {
    if j == 0 then 0 else (j - 1) / 2
  }

  predicate IsHeap(s: seq<Entry>) {
    forall j :: 1 <= j < |s| ==> !Worse(s[j], s[Parent(j)])
  }

  /** Heap order everywhere except between `hole` and its parent, and the
      children of `hole` respect the parent of `hole`. */
  predicate IsHeapAbove(s: seq<Entry>, hole: nat) {
    && (forall j :: 1 <= j < |s| && j != hole ==> !Worse(s[j], s[Parent(j)]))
    && (forall j :: 1 <= j < |s| && hole != 0 && Parent(j) == hole ==> !Worse(s[j], s[Parent(Parent(j))]))
  }

  /** Heap order everywhere except between `hole` and its children, and those
      children respect the parent of `hole`. */
  predicate IsHeapBelow(s: seq<Entry>, hole: nat) {
    && (forall j :: 1 <= j < |s| && Parent(j) != hole ==> !Worse(s[j], s[Parent(j)]))
    && (forall j :: 1 <= j < |s| && hole != 0 && Parent(j) == hole ==> !Worse(s[j], s[Parent(Parent(j))]))
  }

  lemma {:induction false} RootIsWorst(s: seq<Entry>, j: nat)
    requires IsHeap(s) && j < |s|
    ensures !Worse(s[j], s[0])
  {
    if j != 0 {
      RootIsWorst(s, Parent(j));
    }
  }

  /** `kept` is what selecting the `k` best entries of `all` leaves: as many as
      possible, none of them worse than an entry that was left out. */
  ghost predicate IsTopK(kept: multiset<Entry>, all: multiset<Entry>, k: nat) {
    && kept <= all
    && |kept| == (if |all| <= k then |all| else k)
    && forall x, y :: x in kept && y in all - kept ==> !Worse(x, y)
  }

  function Swap(s: seq<Entry>, i: nat, j: nat): seq<Entry>
    requires i < |s| && j < |s|
  {
    s[i := s[j]][j := s[i]]
  }

  lemma SwapKeepsEntries(s: seq<Entry>, i: nat, j: nat)
    requires i < |s| && j < |s|
    ensures multiset(Swap(s, i, j)) == multiset(s)
  {
  }

  /** `j` is a child of `i` and no child of `i` is worse than it. */
  predicate LeastChild(s: seq<Entry>, i: nat, j: nat) {
    && 1 <= j < |s| && Parent(j) == i
    && forall c :: 1 <= c < |s| && Parent(c) == i ==> !Worse(s[c], s[j])
  }

  lemma SiftUpStep(s: seq<Entry>, j: nat)
    requires 0 < j < |s| && IsHeapAbove(s, j) && Worse(s[j], s[Parent(j)])
    ensures IsHeapAbove(Swap(s, Parent(j), j), Parent(j))
  {
  }

  lemma SiftDownStep(s: seq<Entry>, i: nat, j: nat)
    requires 0 < j < |s| && Parent(j) == i && IsHeapBelow(s, i) && Worse(s[j], s[i])
    requires LeastChild(s, i, j)
    ensures IsHeapBelow(Swap(s, i, j), j)
  {
  }

  lemma SiftDownEnds(s: seq<Entry>, i: nat)
    requires IsHeapBelow(s, i)
    requires 2 * i + 1 < |s| ==> exists j: nat :: LeastChild(s, i, j) && !Worse(s[j], s[i])
    ensures IsHeap(s)
  {
    if 2 * i + 1 < |s| {
      var j: nat :| LeastChild(s, i, j) && !Worse(s[j], s[i]);
    }
  }

  method SwapInArray(a: array<Entry>, n: nat, i: nat, j: nat)
    requires i < n <= a.Length && j < n
    modifies a
    ensures a[..n] == Swap(old(a[..n]), i, j) && a[n..] == old(a[n..])
    ensures multiset(a[..n]) == old(multiset(a[..n]))
  {
    SwapKeepsEntries(a[..n], i, j);
    a[i], a[j] := a[j], a[i];
    assert a[..n] == Swap(old(a[..n]), i, j);
  }

  /** The method `up` of container/heap. */
  method Up(a: array<Entry>, n: nat, j0: nat)
    requires j0 < n <= a.Length
    requires IsHeapAbove(a[..n], j0)
    modifies a
    ensures IsHeap(a[..n])
    ensures multiset(a[..n]) == old(multiset(a[..n]))
    ensures a[n..] == old(a[n..])
  {
    var j: nat := j0;
    while true
      invariant j < n
      invariant IsHeapAbove(a[..n], j)
      invariant multiset(a[..n]) == old(multiset(a[..n]))
      invariant a[n..] == old(a[n..])
      decreases j
    {
      ghost var s := a[..n];
      var i := Parent(j);
      if i == j || !Worse(a[j], a[i]) {
        assert s[j] == a[j] && s[i] == a[i];
        break;
      }
      SiftUpStep(s, j);
      SwapInArray(a, n, i, j);
      j := i;
    }
  }

  /** The choice between the children of `i` inside `down`. */
  method PickChild(a: array<Entry>, n: nat, i: nat) returns (j: nat)
    requires n <= a.Length && 2 * i + 1 < n
    ensures j < n && LeastChild(a[..n], i, j)
  {
    j := 2 * i + 1;
    if j + 1 < n && Worse(a[j + 1], a[j]) {
      j := j + 1;
    }
    assert a[..n][2 * i + 1] == a[2 * i + 1];
    assert 2 * i + 2 < n ==> a[..n][2 * i + 2] == a[2 * i + 2];
    forall c | 1 <= c < n && Parent(c) == i
      ensures !Worse(a[..n][c], a[..n][j])
    {
      assert c == 2 * i + 1 || c == 2 * i + 2;
    }
  }

  /** The method `down` of container/heap; reports whether the entry moved. */
  method Down(a: array<Entry>, i0: nat, n: nat) returns (moved: bool)
    requires i0 < n <= a.Length
    requires IsHeapBelow(a[..n], i0)
    modifies a
    ensures IsHeap(a[..n])
    ensures multiset(a[..n]) == old(multiset(a[..n]))
    ensures a[n..] == old(a[n..])
    ensures !moved ==> a[..n] == old(a[..n])
  {
    var i: nat := i0;
    while 2 * i + 1 < n
      invariant i0 <= i < n
      invariant i == i0 ==> a[..n] == old(a[..n])
      invariant IsHeapBelow(a[..n], i)
      invariant multiset(a[..n]) == old(multiset(a[..n]))
      invariant a[n..] == old(a[n..])
      decreases n - i
    {
      var j := PickChild(a, n, i);
      assert a[..n][j] == a[j] && a[..n][i] == a[i];
      if !Worse(a[j], a[i]) {
        SiftDownEnds(a[..n], i);
        return i > i0;
      }
      SiftDownStep(a[..n], i, j);
      SwapInArray(a, n, i, j);
      i := j;
    }
    SiftDownEnds(a[..n], i);
    return i > i0;
  }

  /** heap.Push on the first `n` slots. */
  method HeapPush(a: array<Entry>, n: nat, e: Entry)
    requires n < a.Length && IsHeap(a[..n])
    modifies a
    ensures IsHeap(a[..n + 1])
    ensures multiset(a[..n + 1]) == old(multiset(a[..n])) + multiset{e}
  {
    ghost var s := a[..n];
    a[n] := e;
    assert a[..n + 1] == s + [e];
    Up(a, n + 1, n);
  }

  /** Overwrites the root and calls heap.Fix on it. */
  method HeapReplaceRoot(a: array<Entry>, n: nat, e: Entry)
    requires 0 < n <= a.Length && IsHeap(a[..n])
    modifies a
    ensures IsHeap(a[..n])
    ensures multiset(a[..n]) == old(multiset(a[..n])) - multiset{old(a[0])} + multiset{e}
  {
    ghost var s := a[..n];
    a[0] := e;
    assert s == [s[0]] + s[1..];
    assert a[..n] == [e] + s[1..];
    var moved := Down(a, 0, n);
    if !moved {
      Up(a, n, 0);
    }
  }

  /** sparseVectorPruner: keeps at most `maxNNZ` entries. `added` records
      everything the pruner has been given. */
  class Pruner {
    const maxNNZ: nat
    const entries: array<Entry>
    var len: nat
    ghost var added: multiset<Entry>

    ghost predicate Valid()
      reads this, entries
    {
      && entries.Length == maxNNZ
      && len <= maxNNZ
      && IsHeap(entries[..len])
      && IsTopK(multiset(entries[..len]), added, maxNNZ)
    }

    constructor (maxNNZ: nat)
      ensures Valid() && fresh(entries)
      ensures this.maxNNZ == maxNNZ && added == multiset{}
    {
      this.maxNNZ := maxNNZ;
      entries := new Entry[maxNNZ](_ => Entry(0, 0.0));
      len := 0;
      added := multiset{};
      new;
      assert multiset(entries[..len]) == multiset{};
    }

    method Add(index: nat, value: real)
      requires Valid()
      modifies this, entries
      ensures Valid()
      ensures added == old(added) + multiset{Entry(index, value)}
    {
      var entry := Entry(index, value);
      ghost var kept := multiset(entries[..len]);
      if maxNNZ <= 0 {
        added := added + multiset{entry};
        return;
      }
      if len < maxNNZ {
        HeapPush(entries, len, entry);
        len := len + 1;
        TopKGrows(kept, added, entry, maxNNZ);
        added := added + multiset{entry};
        return;
      }
      ReplaceWorst(entry);
    }

    /** The second half of Add, for a full heap. */
    method ReplaceWorst(entry: Entry)
      requires Valid() && len == maxNNZ > 0
      modifies this`added, entries
      ensures Valid()
      ensures added == old(added) + multiset{entry}
    {
      ghost var kept := multiset(entries[..len]);
      RootIsWorstOfAll(entries[..len]);
      ghost var root := entries[..len][0];
      if entry.value > entries[0].value || (entry.value == entries[0].value && entry.index < entries[0].index) {
        TopKReplaces(kept, added, root, entry, maxNNZ);
        HeapReplaceRoot(entries, len, entry);
      } else {
        TopKRejects(kept, added, root, entry, maxNNZ);
      }
      added := added + multiset{entry};
    }
  }

  lemma RootIsWorstOfAll(s: seq<Entry>)
    requires IsHeap(s) && |s| > 0
    ensures forall x :: x in multiset(s) ==> !Worse(x, s[0])
  {
    forall x | x in multiset(s)
      ensures !Worse(x, s[0])
    {
      var j :| 0 <= j < |s| && s[j] == x;
      RootIsWorst(s, j);
    }
  }

  lemma TopKGrows(kept: multiset<Entry>, all: multiset<Entry>, e: Entry, k: nat)
    requires IsTopK(kept, all, k) && |kept| < k
    ensures IsTopK(kept + multiset{e}, all + multiset{e}, k)
  {
    FullSubset(kept, all);
  }

  lemma FullSubset(kept: multiset<Entry>, all: multiset<Entry>)
    requires kept <= all && |kept| == |all|
    ensures kept == all
  {
    assert all == kept + (all - kept);
    assert |all - kept| == 0;
  }

  lemma TopKReplaces(kept: multiset<Entry>, all: multiset<Entry>, root: Entry, e: Entry, k: nat)
    requires IsTopK(kept, all, k) && |kept| == k
    requires root in kept && (forall x :: x in kept ==> !Worse(x, root))
    requires Worse(root, e)
    ensures IsTopK(kept - multiset{root} + multiset{e}, all + multiset{e}, k)
  {
    var kept', all' := kept - multiset{root} + multiset{e}, all + multiset{e};
    assert all' - kept' == (all - kept) + multiset{root};
  }

  lemma TopKRejects(kept: multiset<Entry>, all: multiset<Entry>, root: Entry, e: Entry, k: nat)
    requires IsTopK(kept, all, k) && |kept| == k
    requires root in kept && (forall x :: x in kept ==> !Worse(x, root))
    requires !Worse(root, e)
    ensures IsTopK(kept, all + multiset{e}, k)
  {
    assert (all + multiset{e}) - kept == (all - kept) + multiset{e};
  }

  /** Two different parts of `all` of the same size each miss an entry of the
      other. */
  lemma PartsDiffer(a: multiset<Entry>, b: multiset<Entry>, all: multiset<Entry>)
    requires a <= all && b <= all && |a| == |b| && a != b
    ensures exists x, y :: x in a && x in all - b && y in b && y in all - a && x != y
  {
    if a <= b {
      FullSubset(a, b);
    } else if b <= a {
      FullSubset(b, a);
    } else {
      var x :| x in a && a[x] > b[x];
      var y :| y in b && b[y] > a[y];
      assert x in all - b && y in all - a;
    }
  }

  /** The selection is determined by what was added: neither the order of the
      additions nor the shape of the heap shows in it. */
  lemma TopKUnique(a: multiset<Entry>, b: multiset<Entry>, all: multiset<Entry>, k: nat)
    requires IsTopK(a, all, k) && IsTopK(b, all, k)
    ensures a == b
  {
    if a != b {
      PartsDiffer(a, b, all);
    }
  }

  /** Pruning what is already pruned together with more entries loses nothing. */
  lemma PruneTwice(kept: multiset<Entry>, a: multiset<Entry>, b: multiset<Entry>, t: multiset<Entry>, k: nat)
    requires IsTopK(kept, a, k) && IsTopK(t, kept + b, k)
    ensures IsTopK(t, a + b, k)
  {
    assert |a| == |kept| + |a - kept| by { assert a == kept + (a - kept); }
    forall x, y | x in t && y in (a + b) - t
      ensures !Worse(x, y)
    {
      if y !in (kept + b) - t {
        assert y in a - kept;
        if x !in kept {
          assert !(kept <= t) by {
            if kept <= t { FullSubset(kept, t); }
          }
          var z :| z in kept && kept[z] > t[z];
          assert z in (kept + b) - t;
          assert !Worse(x, z) && !Worse(z, y);
        }
      }
    }
  }

  /** A kept entry has a greater weight than one that was left out, or the same
      weight and no greater index. */
  lemma KeptBeatsDropped(kept: multiset<Entry>, all: multiset<Entry>, k: nat)
    requires IsTopK(kept, all, k)
    ensures kept <= all && |kept| == (if |all| < k then |all| else k)
    ensures forall x, y :: x in kept && y in all - kept ==>
      x.value > y.value || (x.value == y.value && x.index <= y.index)
  {
  }

  /** The entries of `all` that come before `e`: greater weight, or the same
      weight and a smaller index. */
  ghost function Above(e: Entry, all: multiset<Entry>): set<Entry> {
    set y | y in all && (y.value > e.value || (y.value == e.value && y.index < e.index))
  }

  lemma {:induction false} SetWithinMultiset(s: set<Entry>, m: multiset<Entry>)
    requires forall x :: x in s ==> x in m
    ensures |s| <= |m|
    decreases |s|
  {
    if s != {} {
      var x :| x in s;
      SetWithinMultiset(s - {x}, m - multiset{x});
    }
  }

  lemma {:induction false} MultisetWithinSet(m: multiset<Entry>, s: set<Entry>)
    requires forall x :: x in m ==> m[x] == 1 && x in s
    ensures |m| <= |s|
    decreases |m|
  {
    if m != multiset{} {
      var x :| x in m;
      MultisetWithinSet(m - multiset{x}, s - {x});
    }
  }

  /** With distinct indices, an entry is kept if and only if fewer than `k` others
      come before it. */
  lemma KeptIffRanked(kept: multiset<Entry>, all: multiset<Entry>, k: nat, e: Entry)
    requires IsTopK(kept, all, k) && DistinctIndices(all) && e in all
    ensures e in kept <==> |Above(e, all)| < k
  {
    KeptBeatsDropped(kept, all, k);
    if e in kept {
      AboveKeptIsKept(kept, all, k, e);
      SetWithinMultiset(Above(e, all), kept - multiset{e});
    } else {
      if |kept| == |all| {
        FullSubset(kept, all);
      }
      assert e in all - kept;
      MultisetWithinSet(kept, Above(e, all));
    }
  }

  lemma AboveKeptIsKept(kept: multiset<Entry>, all: multiset<Entry>, k: nat, e: Entry)
    requires IsTopK(kept, all, k) && DistinctIndices(all) && e in kept
    ensures forall y :: y in Above(e, all) ==> y in kept - multiset{e}
  {
    KeptBeatsDropped(kept, all, k);
    forall y | y in Above(e, all)
      ensures y in kept - multiset{e}
    {
      assert y !in all - kept;
    }
  }

  predicate SortedByIndex(s: seq<Entry>) {
    forall i, j :: 0 <= i < j < |s| ==> s[i].index <= s[j].index
  }

  predicate StrictlySortedByIndex(s: seq<Entry>) {
    forall i, j :: 0 <= i < j < |s| ==> s[i].index < s[j].index
  }

  /** `out` lists a selection of the `k` best entries of `all` by index. */
  ghost predicate IsPruned(out: seq<Entry>, all: multiset<Entry>, k: nat) {
    SortedByIndex(out) && IsTopK(multiset(out), all, k)
  }

  ghost predicate DistinctIndices(all: multiset<Entry>) {
    forall x, y :: x in all && y in all ==> all[x] == 1 && (x.index == y.index ==> x == y)
  }

  lemma RepeatedEntry(s: seq<Entry>, i: nat, j: nat)
    requires i < j < |s| && s[i] == s[j]
    ensures multiset(s)[s[i]] >= 2
  {
    assert s == s[..j] + s[j..];
    assert s[i] in s[..j] && s[j] in s[j..];
  }

  lemma PrunedIsStrict(out: seq<Entry>, all: multiset<Entry>, k: nat)
    requires IsPruned(out, all, k) && DistinctIndices(all)
    ensures StrictlySortedByIndex(out)
  {
    forall i, j | 0 <= i < j < |out|
      ensures out[i].index < out[j].index
    {
      assert multiset(out)[out[i]] > 0 && multiset(out)[out[j]] > 0;
      if out[i] == out[j] {
        RepeatedEntry(out, i, j);
      }
    }
  }

  lemma {:induction false} StrictlySortedUnique(a: seq<Entry>, b: seq<Entry>)
    requires StrictlySortedByIndex(a) && StrictlySortedByIndex(b)
    requires multiset(a) == multiset(b)
    ensures a == b
  {
    assert |multiset(a)| == |a| && |multiset(b)| == |b|;
    if a != [] {
      SameFirst(a, b);
      WithoutFirst(a);
      WithoutFirst(b);
      StrictlySortedUnique(a[1..], b[1..]);
    }
  }

  lemma SameFirst(a: seq<Entry>, b: seq<Entry>)
    requires StrictlySortedByIndex(a) && StrictlySortedByIndex(b) && a != [] && b != []
    requires multiset(a) == multiset(b)
    ensures a[0] == b[0]
  {
    assert a[0] in multiset(b) && b[0] in multiset(a);
    FirstIsLeast(a, b[0]);
    FirstIsLeast(b, a[0]);
  }

  lemma FirstIsLeast(s: seq<Entry>, e: Entry)
    requires StrictlySortedByIndex(s) && e in multiset(s)
    ensures s != [] && s[0].index <= e.index && (s[0].index == e.index ==> s[0] == e)
  {
    var i :| 0 <= i < |s| && s[i] == e;
  }

  lemma WithoutFirst(s: seq<Entry>)
    requires StrictlySortedByIndex(s) && s != []
    ensures s == [s[0]] + s[1..] && StrictlySortedByIndex(s[1..]) && multiset(s[1..]) == multiset(s) - multiset{s[0]}
  {
    assert s == [s[0]] + s[1..];
  }

  lemma PrunedUnique(a: seq<Entry>, b: seq<Entry>, all: multiset<Entry>, k: nat)
    requires IsPruned(a, all, k) && IsPruned(b, all, k) && DistinctIndices(all)
    ensures a == b
  {
    TopKUnique(multiset(a), multiset(b), all, k);
    PrunedIsStrict(a, all, k);
    PrunedIsStrict(b, all, k);
    StrictlySortedUnique(a, b);
  }

  method InsertByIndex(s: seq<Entry>, e: Entry) returns (r: seq<Entry>)
    requires SortedByIndex(s)
    ensures SortedByIndex(r) && multiset(r) == multiset(s) + multiset{e}
  {
    var p := |s|;
    while p > 0 && s[p - 1].index > e.index
      invariant 0 <= p <= |s|
      invariant forall j :: p <= j < |s| ==> e.index < s[j].index
      decreases p
    {
      p := p - 1;
    }
    InsertAt(s, p, e);
    r := s[..p] + [e] + s[p..];
  }

  lemma InsertAt(s: seq<Entry>, p: nat, e: Entry)
    requires SortedByIndex(s) && p <= |s|
    requires p > 0 ==> s[p - 1].index <= e.index
    requires forall j :: p <= j < |s| ==> e.index < s[j].index
    ensures SortedByIndex(s[..p] + [e] + s[p..])
    ensures multiset(s[..p] + [e] + s[p..]) == multiset(s) + multiset{e}
  {
    assert s == s[..p] + s[p..];
    forall i | 0 <= i < p
      ensures s[i].index <= e.index
    {
      assert i < p - 1 ==> s[i].index <= s[p - 1].index;
    }
    InsertedSorted(s[..p], e, s[p..]);
    InsertedEntries(s[..p], e, s[p..]);
  }

  lemma InsertedEntries(a: seq<Entry>, e: Entry, b: seq<Entry>)
    ensures multiset(a + [e] + b) == multiset(a + b) + multiset{e}
  {
  }

  lemma InsertedSorted(a: seq<Entry>, e: Entry, b: seq<Entry>)
    requires SortedByIndex(a + b)
    requires forall i :: 0 <= i < |a| ==> a[i].index <= e.index
    requires forall i :: 0 <= i < |b| ==> e.index <= b[i].index
    ensures SortedByIndex(a + [e] + b)
  {
    forall i, j | 0 <= i < j < |a + [e] + b|
      ensures (a + [e] + b)[i].index <= (a + [e] + b)[j].index
    {
      var i', j' := if i > |a| then i - 1 else i, if j > |a| then j - 1 else j;
      assert i != |a| ==> (a + [e] + b)[i] == (a + b)[i'];
      assert j != |a| ==> (a + [e] + b)[j] == (a + b)[j'];
    }
  }

  /** What sort.Slice promises for the comparison by index. */
  method SortByIndex(s: seq<Entry>) returns (sorted: seq<Entry>)
    ensures SortedByIndex(sorted) && multiset(sorted) == multiset(s)
  {
    sorted := [];
    for i := 0 to |s|
      invariant SortedByIndex(sorted) && multiset(sorted) == multiset(s[..i])
    {
      assert s[..i + 1] == s[..i] + [s[i]];
      sorted := InsertByIndex(sorted, s[i]);
    }
    assert s[..|s|] == s;
  }

  /** The entries a pair of parallel slices stands for. */
  function Entries(indices: seq<nat>, values: seq<real>): (r: seq<Entry>)
    requires |indices| <= |values|
    ensures |r| == |indices|
  {
    seq(|indices|, i requires 0 <= i < |indices| => Entry(indices[i], values[i]))
  }

  method Result(p: Pruner) returns (indices: seq<nat>, values: seq<real>)
    requires p.Valid()
    ensures |indices| == |values|
    ensures IsPruned(Entries(indices, values), p.added, p.maxNNZ)
  {
    var entries := SortByIndex(p.entries[..p.len]);
    indices := seq(|entries|, i requires 0 <= i < |entries| => entries[i].index);
    values := seq(|entries|, i requires 0 <= i < |entries| => entries[i].value);
    assert Entries(indices, values) == entries;
  }

  /** An id is skipped unless it has a positive weight. */
  predicate IsValidId(id: int, idf: seq<real>) {
    0 <= id < |idf| && idf[id] > 0.0
  }

  /** offset + uint32(id) in 32-bit arithmetic. */
  function IndexOf(id: int, offset: nat): nat {
    (offset + id) % UINT32_SIZE
  }

  function EntryOf(id: int, idf: seq<real>, offset: nat, sqrt: real -> real): Entry
    requires IsValidId(id, idf)
  {
    Entry(IndexOf(id, offset), sqrt(idf[id]))
  }

  /** The entries the loop over `ids` hands to the pruner. */
  function NewEntries(seen: set<nat>, ids: seq<int32>, idf: seq<real>, offset: nat, sqrt: real -> real): seq<Entry>
    decreases |ids|
  {
    if ids == [] then []
    else if !IsValidId(ids[0], idf) || IndexOf(ids[0], offset) in seen then
      NewEntries(seen, ids[1..], idf, offset, sqrt)
    else
      [EntryOf(ids[0], idf, offset, sqrt)]
      + NewEntries(seen + {IndexOf(ids[0], offset)}, ids[1..], idf, offset, sqrt)
  }

  /** The first loop of appendSparseVector, over the entries the vector has. */
  method AddExisting(pruner: Pruner, indices: seq<nat>, values: seq<real>)
    requires pruner.Valid() && pruner.added == multiset{}
    requires |indices| <= |values|
    modifies pruner, pruner.entries
    ensures pruner.Valid() && pruner.added == multiset(Entries(indices, values))
  {
    ghost var given := Entries(indices, values);
    for i := 0 to |indices|
      invariant pruner.Valid() && pruner.added == multiset(given[..i])
    {
      assert given[..i + 1] == given[..i] + [given[i]];
      pruner.Add(indices[i], values[i]);
    }
    assert given[..|given|] == given;
  }

  /** The second loop, over the ids. */
  method AddNew(pruner: Pruner, indices: seq<nat>, ids: seq<int32>, idf: seq<real>, offset: nat, sqrt: real -> real)
    requires pruner.Valid()
    modifies pruner, pruner.entries
    ensures pruner.Valid()
    ensures pruner.added == old(pruner.added)
                         + multiset(NewEntries((set x | x in indices), ids, idf, offset, sqrt))
  {
    var seen := set x | x in indices;
    ghost var toAdd := multiset(NewEntries(seen, ids, idf, offset, sqrt));
    for i := 0 to |ids|
      invariant pruner.Valid()
      invariant pruner.added + multiset(NewEntries(seen, ids[i..], idf, offset, sqrt)) == old(pruner.added) + toAdd
    {
      assert ids[i..][0] == ids[i] && ids[i..][1..] == ids[i + 1..];
      seen := AddId(pruner, seen, ids[i..], idf, offset, sqrt);
    }
  }

  /** The body of that loop, for the first of the remaining ids. */
  method AddId(pruner: Pruner, seen: set<nat>, ids: seq<int32>, idf: seq<real>, offset: nat, sqrt: real -> real)
    returns (seen': set<nat>)
    requires pruner.Valid() && ids != []
    modifies pruner, pruner.entries
    ensures pruner.Valid()
    ensures pruner.added + multiset(NewEntries(seen', ids[1..], idf, offset, sqrt))
         == old(pruner.added) + multiset(NewEntries(seen, ids, idf, offset, sqrt))
  {
    var id := ids[0];
    seen' := seen;
    if id < 0 || id >= |idf| || idf[id] <= 0.0 {
      return;
    }
    var index := IndexOf(id, offset);
    if index in seen {
      return;
    }
    seen' := seen + {index};
    pruner.Add(index, sqrt(idf[id]));
  }

  /** appendSparseVector. */
  method AppendSparseVector(indices: seq<nat>, values: seq<real>, ids: seq<int32>, idf: seq<real>,
                            offset: nat, sqrt: real -> real)
    returns (indices': seq<nat>, values': seq<real>)
    requires |indices| <= |values|
    ensures |indices'| == |values'|
    ensures IsPruned(Entries(indices', values'),
                     multiset(Entries(indices, values))
                     + multiset(NewEntries((set x | x in indices), ids, idf, offset, sqrt)),
                     MAX_SPARSE_VECTOR_NNZ)
    ensures var all := multiset(Entries(indices, values))
                       + multiset(NewEntries((set x | x in indices), ids, idf, offset, sqrt));
      && |indices'| == (if |all| < 1024 then |all| else 1024)
      && (forall i, j :: 0 <= i < j < |indices'| ==> indices'[i] <= indices'[j])
      && forall x, y :: x in Entries(indices', values') && y in all - multiset(Entries(indices', values')) ==>
        x.value > y.value || (x.value == y.value && x.index <= y.index)
  {
    var pruner := new Pruner(MAX_SPARSE_VECTOR_NNZ);
    AddExisting(pruner, indices, values);
    AddNew(pruner, indices, ids, idf, offset, sqrt);
    indices', values' := Result(pruner);
    PrunedListIsBest(indices', values', pruner.added);
  }

  lemma PrunedListIsBest(indices: seq<nat>, values: seq<real>, all: multiset<Entry>)
    requires |indices| == |values|
    requires IsPruned(Entries(indices, values), all, MAX_SPARSE_VECTOR_NNZ)
    ensures |indices| == (if |all| < 1024 then |all| else 1024)
    ensures forall i, j :: 0 <= i < j < |indices| ==> indices[i] <= indices[j]
    ensures forall x, y :: x in Entries(indices, values) && y in all - multiset(Entries(indices, values)) ==>
      x.value > y.value || (x.value == y.value && x.index <= y.index)
  {
    var out := Entries(indices, values);
    PrunedListBeatsDropped(out, all, MAX_SPARSE_VECTOR_NNZ);
    forall i, j | 0 <= i < j < |indices|
      ensures indices[i] <= indices[j]
    {
      assert out[i].index <= out[j].index;
    }
  }

  lemma PrunedListBeatsDropped(out: seq<Entry>, all: multiset<Entry>, k: nat)
    requires IsPruned(out, all, k)
    ensures |out| == (if |all| < k then |all| else k)
    ensures forall x, y :: x in out && y in all - multiset(out) ==>
      x.value > y.value || (x.value == y.value && x.index <= y.index)
  {
    KeptBeatsDropped(multiset(out), all, k);
    assert |multiset(out)| == |out|;
    forall x | x in out
      ensures x in multiset(out)
    {
    }
  }

  /** `e` comes from a valid id of `ids` whose index was not seen before. */
  ghost predicate IsNew(e: Entry, seen: set<nat>, ids: seq<int32>, idf: seq<real>, offset: nat, sqrt: real -> real) {
    exists id :: id in ids && IsValidId(id, idf) && IndexOf(id, offset) !in seen && e == EntryOf(id, idf, offset, sqrt)
  }

  lemma IndexOfInjective(a: int32, b: int32, offset: nat)
    requires a >= 0 && b >= 0 && IndexOf(a, offset) == IndexOf(b, offset)
    ensures a == b
  {
  }

  lemma EntryOfInjective(a: int32, b: int32, idf: seq<real>, offset: nat, sqrt: real -> real)
    requires IsValidId(a, idf) && IsValidId(b, idf)
    ensures EntryOf(a, idf, offset, sqrt).index == EntryOf(b, idf, offset, sqrt).index ==> a == b
  {
    if IndexOf(a, offset) == IndexOf(b, offset) {
      IndexOfInjective(a, b, offset);
    }
  }

  lemma {:induction false} NewEntriesCount(seen: set<nat>, ids: seq<int32>, idf: seq<real>, offset: nat,
                                           sqrt: real -> real, e: Entry)
    ensures multiset(NewEntries(seen, ids, idf, offset, sqrt))[e]
         == (if IsNew(e, seen, ids, idf, offset, sqrt) then 1 else 0)
    decreases |ids|
  {
    if ids != [] {
      var id, rest := ids[0], ids[1..];
      assert forall x :: x in ids <==> x == id || x in rest;
      if !IsValidId(id, idf) || IndexOf(id, offset) in seen {
        NewEntriesCount(seen, rest, idf, offset, sqrt, e);
      } else {
        var seen' := seen + {IndexOf(id, offset)};
        NewEntriesCount(seen', rest, idf, offset, sqrt, e);
        if IsNew(e, seen, ids, idf, offset, sqrt) && e != EntryOf(id, idf, offset, sqrt) {
          var x :| x in ids && IsValidId(x, idf) && IndexOf(x, offset) !in seen && e == EntryOf(x, idf, offset, sqrt);
          if IndexOf(x, offset) == IndexOf(id, offset) {
            IndexOfInjective(x, id, offset);
          }
          assert IsNew(e, seen', rest, idf, offset, sqrt);
        }
      }
    }
  }

  ghost predicate SameValidIds(ids: seq<int32>, ids': seq<int32>, idf: seq<real>) {
    forall id :: IsValidId(id, idf) ==> (id in ids <==> id in ids')
  }

  /** Only the set of valid ids matters, not their order or repetitions. */
  lemma NewEntriesIgnoreOrder(seen: set<nat>, ids: seq<int32>, ids': seq<int32>, idf: seq<real>, offset: nat,
                              sqrt: real -> real)
    requires SameValidIds(ids, ids', idf)
    ensures multiset(NewEntries(seen, ids, idf, offset, sqrt)) == multiset(NewEntries(seen, ids', idf, offset, sqrt))
  {
    forall e: Entry
      ensures multiset(NewEntries(seen, ids, idf, offset, sqrt))[e]
           == multiset(NewEntries(seen, ids', idf, offset, sqrt))[e]
    {
      NewEntriesCount(seen, ids, idf, offset, sqrt, e);
      NewEntriesCount(seen, ids', idf, offset, sqrt, e);
    }
  }

  lemma NewEntriesDistinct(base: multiset<Entry>, seen: set<nat>, ids: seq<int32>, idf: seq<real>, offset: nat,
                           sqrt: real -> real)
    requires DistinctIndices(base) && forall e :: e in base ==> e.index in seen
    ensures DistinctIndices(base + multiset(NewEntries(seen, ids, idf, offset, sqrt)))
  {
    var more := multiset(NewEntries(seen, ids, idf, offset, sqrt));
    forall x | x in base + more
      ensures (base + more)[x] == 1
    {
      NewEntriesCount(seen, ids, idf, offset, sqrt, x);
    }
    forall x, y | x in base + more && y in base + more && x.index == y.index
      ensures x == y
    {
      NewEntriesCount(seen, ids, idf, offset, sqrt, x);
      NewEntriesCount(seen, ids, idf, offset, sqrt, y);
      if x in more && y in more {
        SameIndexSameNew(x, y, seen, ids, idf, offset, sqrt);
      }
    }
  }

  lemma SameIndexSameNew(x: Entry, y: Entry, seen: set<nat>, ids: seq<int32>, idf: seq<real>, offset: nat,
                         sqrt: real -> real)
    requires IsNew(x, seen, ids, idf, offset, sqrt) && IsNew(y, seen, ids, idf, offset, sqrt)
    requires x.index == y.index
    ensures x == y
  {
    var i :| i in ids && IsValidId(i, idf) && x == EntryOf(i, idf, offset, sqrt);
    var j :| j in ids && IsValidId(j, idf) && y == EntryOf(j, idf, offset, sqrt);
    EntryOfInjective(i, j, idf, offset, sqrt);
  }

  /** Two appends to the same vector with the same valid ids give the same
      vector, whatever the order and repetitions of the ids. */
  lemma AppendIgnoresOrder(base: seq<Entry>, seen: set<nat>, ids: seq<int32>, ids': seq<int32>, idf: seq<real>,
                           offset: nat, sqrt: real -> real, out: seq<Entry>, out': seq<Entry>, k: nat)
    requires DistinctIndices(multiset(base)) && seen == (set e | e in base :: e.index)
    requires SameValidIds(ids, ids', idf)
    requires IsPruned(out, multiset(base) + multiset(NewEntries(seen, ids, idf, offset, sqrt)), k)
    requires IsPruned(out', multiset(base) + multiset(NewEntries(seen, ids', idf, offset, sqrt)), k)
    ensures out == out'
  {
    NewEntriesIgnoreOrder(seen, ids, ids', idf, offset, sqrt);
    NewEntriesDistinct(multiset(base), seen, ids, idf, offset, sqrt);
    PrunedUnique(out, out', multiset(base) + multiset(NewEntries(seen, ids, idf, offset, sqrt)), k);
  }

  /** The entries a vector competes with when `ids` are appended to it: its own, and
      one for each id that has a positive weight and whose index, the offset plus
      the id in 32 bits, the vector does not have. */
  ghost predicate Competes(e: Entry, base: seq<Entry>, ids: seq<int32>, idf: seq<real>, offset: nat,
                           sqrt: real -> real)
  {
    || e in base
    || (exists id :: id in ids && 0 <= id < |idf| && idf[id] > 0.0
          && e == Entry((offset + id) % 0x1_0000_0000, sqrt(idf[id]))
          && forall b :: b in base ==> b.index != e.index)
  }

  lemma CompetesIffAdded(e: Entry, base: seq<Entry>, seen: set<nat>, ids: seq<int32>, idf: seq<real>, offset: nat,
                         sqrt: real -> real)
    requires seen == set b | b in base :: b.index
    ensures Competes(e, base, ids, idf, offset, sqrt) <==>
      e in multiset(base) + multiset(NewEntries(seen, ids, idf, offset, sqrt))
  {
    NewEntriesCount(seen, ids, idf, offset, sqrt, e);
    assert e.index in seen <==> exists b :: b in base && b.index == e.index;
    if IsNew(e, seen, ids, idf, offset, sqrt) {
      var id :| id in ids && IsValidId(id, idf) && IndexOf(id, offset) !in seen && e == EntryOf(id, idf, offset, sqrt);
      assert Competes(e, base, ids, idf, offset, sqrt);
    }
  }

  /** An entry is in the extended vector if and only if it competes and fewer than `k`
      competitors have a greater weight, or the same weight and a smaller index. */
  lemma AppendKeepsBest(base: seq<Entry>, seen: set<nat>, ids: seq<int32>, idf: seq<real>, offset: nat,
                        sqrt: real -> real, out: seq<Entry>, k: nat, e: Entry)
    requires DistinctIndices(multiset(base)) && seen == set b | b in base :: b.index
    requires IsPruned(out, multiset(base) + multiset(NewEntries(seen, ids, idf, offset, sqrt)), k)
    ensures var all := multiset(base) + multiset(NewEntries(seen, ids, idf, offset, sqrt));
      && (e in out <==> Competes(e, base, ids, idf, offset, sqrt) && |Above(e, all)| < k)
      && forall y :: y in Above(e, all) <==>
           Competes(y, base, ids, idf, offset, sqrt)
           && (y.value > e.value || (y.value == e.value && y.index < e.index))
  {
    var all := multiset(base) + multiset(NewEntries(seen, ids, idf, offset, sqrt));
    NewEntriesDistinct(multiset(base), seen, ids, idf, offset, sqrt);
    forall y: Entry
      ensures Competes(y, base, ids, idf, offset, sqrt) <==> y in all
    {
      CompetesIffAdded(y, base, seen, ids, idf, offset, sqrt);
    }
    assert e in out <==> e in multiset(out);
    if e in all {
      KeptIffRanked(multiset(out), all, k, e);
    }
  }

  /** The valid ids of the two groups occupy different vector indices. */
  ghost predicate DisjointRanges(ids1: seq<int32>, idf1: seq<real>, offset1: nat,
                                 ids2: seq<int32>, idf2: seq<real>, offset2: nat)
  {
    forall a, b :: a in ids1 && b in ids2 && IsValidId(a, idf1) && IsValidId(b, idf2) ==>
      IndexOf(a, offset1) != IndexOf(b, offset2)
  }

  /** Indices from the first ids keep none of the second ids out. */
  lemma NewAfterFirst(seen: set<nat>, ids1: seq<int32>, idf1: seq<real>, offset1: nat,
                      ids2: seq<int32>, idf2: seq<real>, offset2: nat, sqrt: real -> real)
    requires DisjointRanges(ids1, idf1, offset1, ids2, idf2, offset2)
    requires seen <= set e | e in multiset(NewEntries({}, ids1, idf1, offset1, sqrt)) :: e.index
    ensures multiset(NewEntries(seen, ids2, idf2, offset2, sqrt)) == multiset(NewEntries({}, ids2, idf2, offset2, sqrt))
  {
    forall e: Entry
      ensures multiset(NewEntries(seen, ids2, idf2, offset2, sqrt))[e]
        == multiset(NewEntries({}, ids2, idf2, offset2, sqrt))[e]
    {
      NewEntriesCount(seen, ids2, idf2, offset2, sqrt, e);
      NewEntriesCount({}, ids2, idf2, offset2, sqrt, e);
      if IsNew(e, {}, ids2, idf2, offset2, sqrt) {
        var b :| b in ids2 && IsValidId(b, idf2) && e == EntryOf(b, idf2, offset2, sqrt);
        if e.index in seen {
          var x :| x in multiset(NewEntries({}, ids1, idf1, offset1, sqrt)) && x.index == e.index;
          NewEntriesCount({}, ids1, idf1, offset1, sqrt, x);
        }
        assert IsNew(e, seen, ids2, idf2, offset2, sqrt);
      }
    }
  }

  /** Appending to an already pruned vector equals pruning everything once. */
  lemma TwoStagesEqualOne(ids1: seq<int32>, idf1: seq<real>, offset1: nat,
                          ids2: seq<int32>, idf2: seq<real>, offset2: nat, sqrt: real -> real,
                          stage1: seq<Entry>, stage2: seq<Entry>, once: seq<Entry>, k: nat)
    requires DisjointRanges(ids1, idf1, offset1, ids2, idf2, offset2)
    requires IsPruned(stage1, multiset(NewEntries({}, ids1, idf1, offset1, sqrt)), k)
    requires IsPruned(stage2, multiset(stage1)
      + multiset(NewEntries((set e | e in stage1 :: e.index), ids2, idf2, offset2, sqrt)), k)
    requires IsPruned(once, multiset(NewEntries({}, ids1, idf1, offset1, sqrt))
      + multiset(NewEntries({}, ids2, idf2, offset2, sqrt)), k)
    ensures stage2 == once
  {
    var first := multiset(NewEntries({}, ids1, idf1, offset1, sqrt));
    var second := multiset(NewEntries({}, ids2, idf2, offset2, sqrt));
    var seen := set e | e in stage1 :: e.index;
    var used := set e | e in first :: e.index;
    forall x | x in stage1
      ensures x in first
    {
      assert x in multiset(stage1);
    }
    NewAfterFirst(seen, ids1, idf1, offset1, ids2, idf2, offset2, sqrt);
    NewAfterFirst(used, ids1, idf1, offset1, ids2, idf2, offset2, sqrt);
    assert multiset(NewEntries(seen, ids2, idf2, offset2, sqrt)) == second;
    assert multiset(NewEntries(used, ids2, idf2, offset2, sqrt)) == second;
    PruneTwice(multiset(stage1), first, second, multiset(stage2), k);
    NewEntriesDistinct(multiset{}, {}, ids1, idf1, offset1, sqrt);
    assert multiset{} + first == first;
    NewEntriesDistinct(first, used, ids2, idf2, offset2, sqrt);
    PrunedUnique(stage2, once, first + second, k);
  }

  /** The offset that the automatic item-to-item vectors use for user ids makes
      the two ranges disjoint as long as both fit in the index space. */
  lemma OffsetSeparatesRanges(tags: seq<int32>, tagsIDF: seq<real>, users: seq<int32>, usersIDF: seq<real>)
    requires |tagsIDF| + |usersIDF| <= UINT32_SIZE
    ensures DisjointRanges(tags, tagsIDF, 0, users, usersIDF, |tagsIDF|)
  {
  }
}
