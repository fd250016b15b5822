/** Streaming the positive feedback of one group of items: the records of an item
    are collected while they arrive in a row, and the item is pushed to the
    non-personalized recommenders with what was collected. Items without any
    record are pushed at the end. Every recommender gets the same pushes. */
module GroupPush {
  import opened Collections
  import opened Dictionary
  import opened FeedbackMerge

  /** `details` stands for all fields but the id; releasing an item empties them. */
  datatype Item = Item(id: Name, details: string)

  datatype Push = Push(item: Item, feedback: seq<Record>)

  function Released(item: Item): Item {
    item.(details := "")
  }

  /** `positions` gives the place of an item in its own group. */
  predicate Located(items: seq<Item>, positions: map<Name, nat>) {
    forall k :: 0 <= k < |items| ==> items[k].id in positions && positions[items[k].id] == k
  }

  /** The records are of items of this group. */
  predicate Belong(s: seq<Record>, items: seq<Item>, positions: map<Name, nat>) {
    forall k :: 0 <= k < |s| ==>
      s[k].item in positions && positions[s[k].item] < |items| && items[positions[s[k].item]].id == s[k].item
  }

  /** Once an item's records stop they do not start again. */
  predicate Contiguous(s: seq<Record>) {
    forall i, j, k :: 0 <= i < j < k < |s| && s[i].item == s[k].item ==> s[j].item == s[i].item
  }

  function OfItem(s: seq<Record>, id: Name): seq<Record> {
    if s == [] then [] else OfItem(s[..|s| - 1], id) + if s[|s| - 1].item == id then [s[|s| - 1]] else []
  }

  lemma OfItemAppend(s: seq<Record>, r: Record, id: Name)
    ensures OfItem(s + [r], id) == OfItem(s, id) + if r.item == id then [r] else []
  {
    assert (s + [r])[..|s|] == s;
  }

  /** An item's records are exactly the records of that item, in stream order. */
  lemma {:induction false} OfItemInOrder(s: seq<Record>, id: Name) returns (at: seq<nat>)
    ensures Picks(OfItem(s, id), s, at)
    ensures forall p: nat :: p < |s| ==> (p in at <==> s[p].item == id)
  {
    if s == [] {
      at := [];
    } else {
      var n := |s| - 1;
      assert s == s[..n] + [s[n]];
      at := OfItemInOrder(s[..n], id);
      if s[n].item == id {
        at := at + [n];
      }
    }
  }

  // ------------------------------------------------------------------
  // Runs
  // ------------------------------------------------------------------

  /** The stream cut into the longest stretches of one item. */
  function Runs(s: seq<Record>): (r: seq<seq<Record>>)
    ensures forall k :: 0 <= k < |r| ==> r[k] != []
    ensures s != [] ==> r != [] && r[|r| - 1][|r[|r| - 1]| - 1] == s[|s| - 1]
  {
    if s == [] then []
    else
      var front, f := s[..|s| - 1], s[|s| - 1];
      var runs := Runs(front);
      if front != [] && front[|front| - 1].item == f.item
      then runs[..|runs| - 1] + [runs[|runs| - 1] + [f]]
      else runs + [[f]]
  }

  /** Every run has one item. */
  predicate Uniform(runs: seq<seq<Record>>) {
    forall k :: 0 <= k < |runs| ==>
      runs[k] != [] && forall j :: 0 <= j < |runs[k]| ==> runs[k][j].item == runs[k][0].item
  }

  lemma {:induction false} RunsUniform(s: seq<Record>)
    ensures Uniform(Runs(s))
  {
    if s != [] {
      RunsUniform(s[..|s| - 1]);
    }
  }

  /** The number of runs of an item. */
  function RunCount(runs: seq<seq<Record>>, id: Name): nat
    requires forall k :: 0 <= k < |runs| ==> runs[k] != []
  {
    if runs == [] then 0
    else RunCount(runs[..|runs| - 1], id) + if runs[|runs| - 1][0].item == id then 1 else 0
  }

  /** All records in the runs of an item. */
  function Gather(runs: seq<seq<Record>>, id: Name): seq<Record>
    requires forall k :: 0 <= k < |runs| ==> runs[k] != []
  {
    if runs == [] then []
    else Gather(runs[..|runs| - 1], id) + if runs[|runs| - 1][0].item == id then runs[|runs| - 1] else []
  }

  lemma RunsAppend(s: seq<Record>, f: Record)
    ensures s != [] && s[|s| - 1].item == f.item ==>
      Runs(s + [f]) == Runs(s)[..|Runs(s)| - 1] + [Runs(s)[|Runs(s)| - 1] + [f]]
    ensures s == [] || s[|s| - 1].item != f.item ==> Runs(s + [f]) == Runs(s) + [[f]]
  {
    assert (s + [f])[..|s|] == s;
  }

  lemma AppendRun(runs: seq<seq<Record>>, run: seq<Record>, id: Name)
    requires run != [] && forall k :: 0 <= k < |runs| ==> runs[k] != []
    ensures RunCount(runs + [run], id) == RunCount(runs, id) + if run[0].item == id then 1 else 0
    ensures Gather(runs + [run], id) == Gather(runs, id) + if run[0].item == id then run else []
  {
    assert (runs + [run])[..|runs|] == runs;
  }

  /** Extending the last run leaves the number of runs alone. */
  lemma ExtendLast(runs: seq<seq<Record>>, f: Record, id: Name)
    requires runs != [] && forall k :: 0 <= k < |runs| ==> runs[k] != []
    requires runs[|runs| - 1][0].item == f.item
    ensures var runs' := runs[..|runs| - 1] + [runs[|runs| - 1] + [f]];
      && RunCount(runs', id) == RunCount(runs, id)
      && Gather(runs', id) == Gather(runs, id) + if f.item == id then [f] else []
    ensures f.item == id ==> RunCount(runs, id) > 0
  {
    var front, last := runs[..|runs| - 1], runs[|runs| - 1];
    assert front + [last] == runs;
    AppendRun(front, last, id);
    AppendRun(front, last + [f], id);
  }

  lemma LastRun(s: seq<Record>)
    requires s != []
    ensures Runs(s) != [] && Runs(s)[|Runs(s)| - 1][0].item == s[|s| - 1].item
  {
    RunsUniform(s);
    var last := Runs(s)[|Runs(s)| - 1];
    assert last[|last| - 1].item == last[0].item;
  }

  lemma RunsStep(s: seq<Record>, f: Record, id: Name)
    ensures RunCount(Runs(s + [f]), id)
         == RunCount(Runs(s), id) + if f.item == id && (s == [] || s[|s| - 1].item != id) then 1 else 0
    ensures Gather(Runs(s + [f]), id) == Gather(Runs(s), id) + if f.item == id then [f] else []
  {
    RunsAppend(s, f);
    if s != [] && s[|s| - 1].item == f.item {
      LastRun(s);
      ExtendLast(Runs(s), f, id);
    } else {
      AppendRun(Runs(s), [f], id);
    }
  }

  predicate Occurs(s: seq<Record>, id: Name) {
    exists k :: 0 <= k < |s| && s[k].item == id
  }

  lemma OccursAppend(s: seq<Record>, f: Record, id: Name)
    ensures Occurs(s + [f], id) <==> Occurs(s, id) || f.item == id
  {
    var t := s + [f];
    assert t[|s|] == f;
    if Occurs(s, id) {
      var k :| 0 <= k < |s| && s[k].item == id;
      assert t[k].item == id;
    }
    if Occurs(t, id) && f.item != id {
      var k :| 0 <= k < |t| && t[k].item == id;
      assert s[k].item == id;
    }
  }

  /** The runs hold each item's records, all of them and in order. */
  lemma {:induction false} RunsGather(s: seq<Record>, id: Name)
    ensures Gather(Runs(s), id) == OfItem(s, id)
  {
    if s != [] {
      var front, f := s[..|s| - 1], s[|s| - 1];
      assert s == front + [f];
      RunsGather(front, id);
      GatherStep(front, f, id);
    }
  }

  lemma GatherStep(s: seq<Record>, f: Record, id: Name)
    requires Gather(Runs(s), id) == OfItem(s, id)
    ensures Gather(Runs(s + [f]), id) == OfItem(s + [f], id)
  {
    RunsStep(s, f, id);
    OfItemAppend(s, f, id);
  }

  lemma {:induction false} RunsOccur(s: seq<Record>, id: Name)
    ensures RunCount(Runs(s), id) > 0 <==> Occurs(s, id)
  {
    if s != [] {
      var front, f := s[..|s| - 1], s[|s| - 1];
      assert s == front + [f];
      RunsOccur(front, id);
      OccurStep(front, f, id);
    }
  }

  lemma OccurStep(s: seq<Record>, f: Record, id: Name)
    requires RunCount(Runs(s), id) > 0 <==> Occurs(s, id)
    ensures RunCount(Runs(s + [f]), id) > 0 <==> Occurs(s + [f], id)
  {
    RunsStep(s, f, id);
    OccursAppend(s, f, id);
  }

  lemma ContiguousStep(s: seq<Record>, f: Record)
    ensures Contiguous(s + [f]) <==> Contiguous(s) && (s != [] && s[|s| - 1].item != f.item ==> !Occurs(s, f.item))
  {
    var t := s + [f];
    if Contiguous(t) {
      forall i, j, k | 0 <= i < j < k < |s| && s[i].item == s[k].item
        ensures s[j].item == s[i].item
      {
        assert t[i] == s[i] && t[j] == s[j] && t[k] == s[k];
      }
      forall k | 0 <= k < |s| && s[|s| - 1].item != f.item
        ensures s[k].item != f.item
      {
        assert t[k] == s[k] && t[|s| - 1] == s[|s| - 1] && t[|s|] == f;
      }
    }
  }

  ghost predicate OneRunEach(s: seq<Record>) {
    forall id :: RunCount(Runs(s), id) <= 1
  }

  lemma OneRunStep(s: seq<Record>, f: Record)
    ensures OneRunEach(s + [f]) <==>
      OneRunEach(s) && (s != [] && s[|s| - 1].item != f.item ==> RunCount(Runs(s), f.item) == 0)
    ensures s == [] ==> RunCount(Runs(s), f.item) == 0
  {
    forall id
      ensures RunCount(Runs(s + [f]), id)
           == RunCount(Runs(s), id) + if f.item == id && (s == [] || s[|s| - 1].item != id) then 1 else 0
    {
      RunsStep(s, f, id);
    }
    if OneRunEach(s + [f]) {
      forall id
        ensures RunCount(Runs(s), id) <= 1
      {
        assert RunCount(Runs(s + [f]), id) <= 1;
      }
      assert RunCount(Runs(s + [f]), f.item) <= 1;
    }
  }

  /** The records are contiguous exactly if no item has two runs. */
  lemma {:induction false} ContiguousRuns(s: seq<Record>)
    ensures Contiguous(s) <==> OneRunEach(s)
  {
    if s != [] {
      var front, f := s[..|s| - 1], s[|s| - 1];
      assert s == front + [f];
      ContiguousRuns(front);
      NextRecord(front, f);
    }
  }

  lemma NextRecord(s: seq<Record>, f: Record)
    requires Contiguous(s) <==> OneRunEach(s)
    ensures Contiguous(s + [f]) <==> OneRunEach(s + [f])
  {
    ContiguousStep(s, f);
    OneRunStep(s, f);
    RunsOccur(s, f.item);
  }

  // ------------------------------------------------------------------
  // What is pushed
  // ------------------------------------------------------------------

  predicate KnownRuns(runs: seq<seq<Record>>, items: seq<Item>, positions: map<Name, nat>) {
    forall k :: 0 <= k < |runs| ==> runs[k] != [] && Belong([runs[k][0]], items, positions)
  }

  /** An item as it is after the given runs were pushed. */
  function ItemAfter(items: seq<Item>, positions: map<Name, nat>, runs: seq<seq<Record>>, k: nat): Item
    requires k < |items| && forall j :: 0 <= j < |runs| ==> runs[j] != []
  {
    if RunCount(runs, items[k].id) > 0 then Released(items[k]) else items[k]
  }

  /** One push for each run; the details are there only in an item's first. */
  function RunPushes(items: seq<Item>, positions: map<Name, nat>, runs: seq<seq<Record>>): seq<Push>
    requires KnownRuns(runs, items, positions)
  {
    if runs == [] then []
    else
      var front, run := runs[..|runs| - 1], runs[|runs| - 1];
      assert Belong([run[0]], items, positions);
      assert [run[0]][0] == run[0];
      RunPushes(items, positions, front) + [Push(ItemAfter(items, positions, front, positions[run[0].item]), run)]
  }

  /** The first `n` items, as far as they have no run. */
  function BarePushes(items: seq<Item>, runs: seq<seq<Record>>, n: nat): seq<Push>
    requires n <= |items| && forall j :: 0 <= j < |runs| ==> runs[j] != []
  {
    if n == 0 then []
    else BarePushes(items, runs, n - 1) + if RunCount(runs, items[n - 1].id) == 0 then [Push(items[n - 1], [])] else []
  }

  lemma {:induction false} RunsKnown(s: seq<Record>, items: seq<Item>, positions: map<Name, nat>)
    requires Belong(s, items, positions)
    ensures KnownRuns(Runs(s), items, positions)
  {
    if s != [] {
      RunsKnown(s[..|s| - 1], items, positions);
      var runs := Runs(s[..|s| - 1]);
      assert runs != [] ==> Belong([runs[|runs| - 1][0]], items, positions);
      assert [s[|s| - 1]][0] == s[|s| - 1];
    }
  }

  function AllPushes(items: seq<Item>, positions: map<Name, nat>, s: seq<Record>): seq<Push>
    requires Belong(s, items, positions)
  {
    RunsKnown(s, items, positions);
    RunPushes(items, positions, Runs(s)) + BarePushes(items, Runs(s), |items|)
  }

  function PushCount(pushes: seq<Push>, id: Name): nat {
    if pushes == [] then 0
    else PushCount(pushes[..|pushes| - 1], id) + if pushes[|pushes| - 1].item.id == id then 1 else 0
  }

  lemma {:induction false} PushCountConcat(a: seq<Push>, b: seq<Push>, id: Name)
    ensures PushCount(a + b, id) == PushCount(a, id) + PushCount(b, id)
  {
    if b == [] {
      assert a + b == a;
    } else {
      assert (a + b)[..|a + b| - 1] == a + b[..|b| - 1];
      PushCountConcat(a, b[..|b| - 1], id);
    }
  }

  lemma {:induction false} RunPushCount(items: seq<Item>, positions: map<Name, nat>, runs: seq<seq<Record>>, id: Name)
    requires KnownRuns(runs, items, positions)
    ensures PushCount(RunPushes(items, positions, runs), id) == RunCount(runs, id)
  {
    if runs != [] {
      var front, run := runs[..|runs| - 1], runs[|runs| - 1];
      RunPushCount(items, positions, front, id);
      assert Belong([run[0]], items, positions) && [run[0]][0] == run[0];
      var before := RunPushes(items, positions, front);
      assert RunPushes(items, positions, runs)[..|before|] == before;
    }
  }

  lemma {:induction false} BarePushCount(items: seq<Item>, positions: map<Name, nat>, runs: seq<seq<Record>>, n: nat,
                                         k: nat)
    requires Located(items, positions) && n <= |items| && k < |items| && forall j :: 0 <= j < |runs| ==> runs[j] != []
    ensures PushCount(BarePushes(items, runs, n), items[k].id)
         == if k < n && RunCount(runs, items[k].id) == 0 then 1 else 0
  {
    if n > 0 {
      BarePushCount(items, positions, runs, n - 1, k);
      var before := BarePushes(items, runs, n - 1);
      assert before + [] == before;
      PushCountLast(before, Push(items[n - 1], []), items[k].id);
      SameIdSamePlace(items, positions, k, n - 1);
    }
  }

  lemma SameIdSamePlace(items: seq<Item>, positions: map<Name, nat>, j: nat, k: nat)
    requires Located(items, positions) && j < |items| && k < |items|
    ensures items[j].id == items[k].id <==> j == k
  {
    assert positions[items[j].id] == j && positions[items[k].id] == k;
  }

  lemma {:induction false} BarePushed(items: seq<Item>, runs: seq<seq<Record>>, n: nat, k: nat)
    requires k < n <= |items| && forall j :: 0 <= j < |runs| ==> runs[j] != []
    requires RunCount(runs, items[k].id) == 0
    ensures Push(items[k], []) in BarePushes(items, runs, n)
  {
    if k < n - 1 {
      BarePushed(items, runs, n - 1, k);
    }
  }

  lemma PushCountLast(pushes: seq<Push>, p: Push, id: Name)
    ensures PushCount(pushes + [p], id) == PushCount(pushes, id) + if p.item.id == id then 1 else 0
  {
    assert (pushes + [p])[..|pushes|] == pushes && (pushes + [p])[|pushes|] == p;
  }

  lemma {:induction false} RunPushAt(items: seq<Item>, positions: map<Name, nat>, runs: seq<seq<Record>>, k: nat)
    requires KnownRuns(runs, items, positions) && k < |runs|
    ensures |RunPushes(items, positions, runs)| == |runs| && KnownRuns(runs[..k], items, positions)
    ensures Belong([runs[k][0]], items, positions) && runs[k][0].item in positions
    ensures var p := RunPushes(items, positions, runs)[k];
      && p.feedback == runs[k] && p.item.id == runs[k][0].item
      && (RunCount(runs[..k], runs[k][0].item) > 0 ==> p.item.details == "")
  {
    var front, run := runs[..|runs| - 1], runs[|runs| - 1];
    assert Belong([run[0]], items, positions) && [run[0]][0] == run[0];
    RunPushLength(items, positions, front);
    if k < |front| {
      RunPushAt(items, positions, front, k);
      assert front[..k] == runs[..k] && front[k] == runs[k];
    }
  }

  lemma {:induction false} RunPushLength(items: seq<Item>, positions: map<Name, nat>, runs: seq<seq<Record>>)
    requires KnownRuns(runs, items, positions)
    ensures |RunPushes(items, positions, runs)| == |runs|
  {
    if runs != [] {
      RunPushLength(items, positions, runs[..|runs| - 1]);
    }
  }

  lemma {:induction false} RunCounted(runs: seq<seq<Record>>, j: nat)
    requires j < |runs| && forall k :: 0 <= k < |runs| ==> runs[k] != []
    ensures RunCount(runs, runs[j][0].item) > 0
  {
    if j < |runs| - 1 {
      RunCounted(runs[..|runs| - 1], j);
    }
  }

  /** An item's details are handed on only once: a later push of the same item has
      none. */
  lemma LaterPushesAreBare(items: seq<Item>, positions: map<Name, nat>, s: seq<Record>, j: nat, k: nat)
    requires Located(items, positions) && Belong(s, items, positions)
    requires j < k < |AllPushes(items, positions, s)|
    requires var pushes := AllPushes(items, positions, s); pushes[j].item.id == pushes[k].item.id
    ensures AllPushes(items, positions, s)[k].item.details == ""
  {
    var runs, pushes := Runs(s), AllPushes(items, positions, s);
    RunsKnown(s, items, positions);
    RunPushLength(items, positions, runs);
    LocatedDistinct(items, positions);
    if k < |runs| {
      RunPushAt(items, positions, runs, j);
      RunPushAt(items, positions, runs, k);
      RunCounted(runs[..k], j);
    } else {
      var bare := BarePushes(items, runs, |items|);
      var i := BarePushOf(items, runs, |items|, k - |runs|);
      if j < |runs| {
        RunPushAt(items, positions, runs, j);
        RunCounted(runs, j);
      } else {
        BareInOrder(items, runs, |items|, j - |runs|, k - |runs|);
      }
    }
  }

  lemma LocatedDistinct(items: seq<Item>, positions: map<Name, nat>)
    requires Located(items, positions)
    ensures forall g, h :: 0 <= g < h < |items| ==> items[g].id != items[h].id
  {
    forall g, h | 0 <= g < h < |items|
      ensures items[g].id != items[h].id
    {
      assert positions[items[g].id] == g && positions[items[h].id] == h;
    }
  }

  /** The item of a push without records. */
  lemma {:induction false} BarePushOf(items: seq<Item>, runs: seq<seq<Record>>, n: nat, k: nat) returns (i: nat)
    requires n <= |items| && (forall j :: 0 <= j < |runs| ==> runs[j] != []) && k < |BarePushes(items, runs, n)|
    ensures i < n && BarePushes(items, runs, n)[k] == Push(items[i], []) && RunCount(runs, items[i].id) == 0
    ensures |BarePushes(items, runs, i)| == k
  {
    var before := BarePushes(items, runs, n - 1);
    if k < |before| {
      i := BarePushOf(items, runs, n - 1, k);
    } else {
      i := n - 1;
    }
  }

  lemma {:induction false} BareGrow(items: seq<Item>, runs: seq<seq<Record>>, i: nat, n: nat)
    requires i <= n <= |items| && forall j :: 0 <= j < |runs| ==> runs[j] != []
    ensures |BarePushes(items, runs, i)| <= |BarePushes(items, runs, n)|
  {
    if i < n {
      BareGrow(items, runs, i, n - 1);
    }
  }

  lemma BareInOrder(items: seq<Item>, runs: seq<seq<Record>>, n: nat, j: nat, k: nat)
    requires n <= |items| && (forall j :: 0 <= j < |runs| ==> runs[j] != []) && j < k < |BarePushes(items, runs, n)|
    requires forall g, h :: 0 <= g < h < |items| ==> items[g].id != items[h].id
    ensures BarePushes(items, runs, n)[j].item.id != BarePushes(items, runs, n)[k].item.id
  {
    var h := BarePushOf(items, runs, n, j);
    var i := BarePushOf(items, runs, n, k);
    if i <= h {
      BareGrow(items, runs, i, h);
    }
  }

  /** Every item is pushed once for each of its runs, and once if it has none. */
  lemma PushesPerItem(items: seq<Item>, positions: map<Name, nat>, s: seq<Record>, k: nat)
    requires Located(items, positions) && Belong(s, items, positions) && k < |items|
    ensures var runs := RunCount(Runs(s), items[k].id);
      PushCount(AllPushes(items, positions, s), items[k].id) == if runs == 0 then 1 else runs
  {
    RunsKnown(s, items, positions);
    var id := items[k].id;
    RunPushCount(items, positions, Runs(s), id);
    BarePushCount(items, positions, Runs(s), |items|, k);
    PushCountConcat(RunPushes(items, positions, Runs(s)), BarePushes(items, Runs(s), |items|), id);
  }

  /** Every item is pushed exactly once if and only if the records are contiguous. */
  lemma OnceIffContiguous(items: seq<Item>, positions: map<Name, nat>, s: seq<Record>)
    requires Located(items, positions) && Belong(s, items, positions)
    ensures (forall k :: 0 <= k < |items| ==> PushCount(AllPushes(items, positions, s), items[k].id) == 1) <==>
      Contiguous(s)
  {
    ContiguousRuns(s);
    forall k: nat | k < |items|
      ensures PushCount(AllPushes(items, positions, s), items[k].id) == 1 <==> RunCount(Runs(s), items[k].id) <= 1
    {
      PushesPerItem(items, positions, s, k);
    }
    if forall k :: 0 <= k < |items| ==> RunCount(Runs(s), items[k].id) <= 1 {
      forall id
        ensures RunCount(Runs(s), id) <= 1
      {
        RunsOccur(s, id);
        if Occurs(s, id) {
          var j :| 0 <= j < |s| && s[j].item == id;
          assert items[positions[s[j].item]].id == id;
        }
      }
    }
  }

  lemma {:induction false} OnlyRun(items: seq<Item>, positions: map<Name, nat>, runs: seq<seq<Record>>, k: nat)
    requires Located(items, positions) && KnownRuns(runs, items, positions) && k < |items|
    requires RunCount(runs, items[k].id) == 1
    ensures Push(items[k], Gather(runs, items[k].id)) in RunPushes(items, positions, runs)
  {
    var front, run := runs[..|runs| - 1], runs[|runs| - 1];
    assert Belong([run[0]], items, positions) && [run[0]][0] == run[0];
    if run[0].item == items[k].id {
      NoRunNoRecords(front, items[k].id);
      assert positions[run[0].item] == k;
      assert Gather(runs, items[k].id) == run;
      assert RunPushes(items, positions, runs) == RunPushes(items, positions, front) + [Push(items[k], run)];
    } else {
      OnlyRun(items, positions, front, k);
      assert Gather(runs, items[k].id) == Gather(front, items[k].id);
    }
  }

  lemma {:induction false} NoRunNoRecords(runs: seq<seq<Record>>, id: Name)
    requires (forall k :: 0 <= k < |runs| ==> runs[k] != []) && RunCount(runs, id) == 0
    ensures Gather(runs, id) == []
  {
    if runs != [] {
      NoRunNoRecords(runs[..|runs| - 1], id);
    }
  }

  /** If the records are contiguous, every item is pushed exactly once, as it was
      loaded and with exactly its records in the order of the stream. */
  lemma EveryItemPushedOnce(items: seq<Item>, positions: map<Name, nat>, s: seq<Record>, k: nat)
    requires Located(items, positions) && Belong(s, items, positions) && Contiguous(s) && k < |items|
    ensures PushCount(AllPushes(items, positions, s), items[k].id) == 1
    ensures Push(items[k], OfItem(s, items[k].id)) in AllPushes(items, positions, s)
  {
    OnceIffContiguous(items, positions, s);
    ContiguousRuns(s);
    RunsKnown(s, items, positions);
    RunsGather(s, items[k].id);
    if RunCount(Runs(s), items[k].id) == 0 {
      NoRunNoRecords(Runs(s), items[k].id);
      BarePushed(items, Runs(s), |items|, k);
    } else {
      OnlyRun(items, positions, Runs(s), k);
    }
  }

  // ------------------------------------------------------------------
  // From the stream of the group to the pushes
  // ------------------------------------------------------------------

  /** The records of known items are of items of this group. */
  predicate KnownBelong(stream: seq<Record>, n: Names, items: seq<Item>, positions: map<Name, nat>) {
    forall k :: 0 <= k < |stream| && Position(n.items, stream[k].item) >= 0 ==> Belong([stream[k]], items, positions)
  }

  lemma UsedAppend(s: seq<Record>, r: Record, negative: Option<seq<Record>>, n: Names)
    ensures UsedPositives(s + [r], negative, n)
         == UsedPositives(s, negative, n) + if Used(r, negative, n) then [r] else []
  {
    assert (s + [r])[..|s|] == s;
  }

  lemma {:induction false} UsedOccur(s: seq<Record>, negative: Option<seq<Record>>, n: Names, id: Name)
    ensures Occurs(UsedPositives(s, negative, n), id) ==> Occurs(s, id)
  {
    if s != [] {
      var front, r := s[..|s| - 1], s[|s| - 1];
      assert s == front + [r];
      UsedOccur(front, negative, n, id);
      UsedAppend(front, r, negative, n);
      OccursAppend(front, r, id);
      OccursAppend(UsedPositives(front, negative, n), r, id);
    }
  }

  /** Leaving out records does not tear the records of an item apart. */
  lemma {:induction false} UsedContiguous(s: seq<Record>, negative: Option<seq<Record>>, n: Names)
    requires Contiguous(s)
    ensures Contiguous(UsedPositives(s, negative, n))
    ensures var used := UsedPositives(s, negative, n);
      used != [] && s != [] && Occurs(used, s[|s| - 1].item) ==> used[|used| - 1].item == s[|s| - 1].item
    decreases |s|, 0
  {
    if s != [] {
      var front, r := s[..|s| - 1], s[|s| - 1];
      assert s == front + [r];
      UsedContiguousStep(front, r, negative, n);
    }
  }

  lemma UsedContiguousStep(s: seq<Record>, r: Record, negative: Option<seq<Record>>, n: Names)
    requires Contiguous(s + [r])
    ensures Contiguous(UsedPositives(s + [r], negative, n))
    ensures var used := UsedPositives(s + [r], negative, n);
      used != [] && Occurs(used, r.item) ==> used[|used| - 1].item == r.item
    decreases |s|, 1
  {
    ContiguousStep(s, r);
    UsedAppend(s, r, negative, n);
    UsedContiguous(s, negative, n);
    UsedOccur(s, negative, n, r.item);
    ContiguousStep(UsedPositives(s, negative, n), r);
  }

  lemma {:induction false} UsedBelong(s: seq<Record>, negative: Option<seq<Record>>, n: Names, items: seq<Item>,
                                      positions: map<Name, nat>)
    requires KnownBelong(s, n, items, positions)
    ensures Belong(UsedPositives(s, negative, n), items, positions)
  {
    if s != [] {
      UsedBelong(s[..|s| - 1], negative, n, items, positions);
      var r := s[|s| - 1];
      if Used(r, negative, n) {
        assert Belong([r], items, positions) && [r][0] == r;
      }
    }
  }

  /** If the positive stream of a group lists each item's records in a row, then each
      item of the group is pushed exactly once, as it was loaded and with exactly its
      used records in stream order, none if there are none; known items of other
      groups must not occur in the stream. */
  lemma GroupPushedOnce(items: seq<Item>, positions: map<Name, nat>, stream: seq<Record>,
                        negative: Option<seq<Record>>, n: Names, k: nat)
    requires Located(items, positions) && KnownBelong(stream, n, items, positions) && Contiguous(stream) && k < |items|
    ensures var used := UsedPositives(stream, negative, n);
      && Belong(used, items, positions)
      && PushCount(AllPushes(items, positions, used), items[k].id) == 1
      && Push(items[k], OfItem(used, items[k].id)) in AllPushes(items, positions, used)
  {
    UsedBelong(stream, negative, n, items, positions);
    UsedContiguous(stream, negative, n);
    EveryItemPushedOnce(items, positions, UsedPositives(stream, negative, n), k);
  }

  /** The used records of an item are those of its records that are used. */
  lemma {:induction false} UsedOfItem(s: seq<Record>, negative: Option<seq<Record>>, n: Names, id: Name)
    ensures OfItem(UsedPositives(s, negative, n), id) == UsedPositives(OfItem(s, id), negative, n)
  {
    if s != [] {
      var front, r := s[..|s| - 1], s[|s| - 1];
      assert s == front + [r];
      UsedOfItem(front, negative, n, id);
      UsedOfItemStep(front, r, negative, n, id);
    }
  }

  lemma UsedOfItemStep(s: seq<Record>, r: Record, negative: Option<seq<Record>>, n: Names, id: Name)
    requires OfItem(UsedPositives(s, negative, n), id) == UsedPositives(OfItem(s, id), negative, n)
    ensures OfItem(UsedPositives(s + [r], negative, n), id) == UsedPositives(OfItem(s + [r], id), negative, n)
  {
    UsedAppend(s, r, negative, n);
    OfItemAppend(s, r, id);
    OfItemAppend(UsedPositives(s, negative, n), r, id);
    UsedAppend(OfItem(s, id), r, negative, n);
    assert UsedPositives(s, negative, n) + [] == UsedPositives(s, negative, n) && OfItem(s, id) + [] == OfItem(s, id);
  }

  // ------------------------------------------------------------------
  // The loops
  // ------------------------------------------------------------------

  /** Group, flags and pushes after pushing the runs in `closed`. */
  ghost predicate Pushed(items: seq<Item>, positions: map<Name, nat>, closed: seq<seq<Record>>,
                         group: seq<Item>, fed: seq<bool>, pushes: seq<Push>)
  {
    && KnownRuns(closed, items, positions)
    && |group| == |fed| == |items|
    && (forall k :: 0 <= k < |items| ==> group[k] == ItemAfter(items, positions, closed, k))
    && (forall k :: 0 <= k < |items| ==> (fed[k] <==> RunCount(closed, items[k].id) > 0))
    && pushes == RunPushes(items, positions, closed)
  }

  /** After the records `s` the runs in `closed` are pushed and `current` is being
      collected, for the item at `index`. */
  ghost predicate Collecting(items: seq<Item>, positions: map<Name, nat>, s: seq<Record>, closed: seq<seq<Record>>,
                             current: seq<Record>, index: nat)
  {
    && Located(items, positions) && Belong(s, items, positions)
    && Runs(s) == (if current == [] then closed else closed + [current])
    && (s == [] <==> current == [])
    && (current != [] ==>
          && current[|current| - 1] == s[|s| - 1]
          && index < |items| && positions[s[|s| - 1].item] == index && items[index].id == s[|s| - 1].item)
  }

  lemma CloseCounts(items: seq<Item>, positions: map<Name, nat>, s: seq<Record>, closed: seq<seq<Record>>,
                    current: seq<Record>, index: nat)
    requires Collecting(items, positions, s, closed, current, index) && current != []
    requires KnownRuns(closed, items, positions)
    ensures current[0].item == s[|s| - 1].item && KnownRuns(closed + [current], items, positions)
    ensures forall k :: 0 <= k < |items| ==>
      RunCount(closed + [current], items[k].id) == RunCount(closed, items[k].id) + if k == index then 1 else 0
  {
    var closed' := closed + [current];
    assert closed' == Runs(s) && closed'[|closed|] == current;
    RunsKnown(s, items, positions);
    RunsUniform(s);
    forall k | 0 <= k < |items|
      ensures RunCount(closed', items[k].id) == RunCount(closed, items[k].id) + if k == index then 1 else 0
    {
      AppendRun(closed, current, items[k].id);
      assert positions[items[k].id] == k;
    }
  }

  /** Pushing the collected run closes it. */
  lemma CloseRun(items: seq<Item>, positions: map<Name, nat>, s: seq<Record>, closed: seq<seq<Record>>,
                 current: seq<Record>, index: nat, group: seq<Item>, fed: seq<bool>, pushes: seq<Push>)
    requires Collecting(items, positions, s, closed, current, index) && current != []
    requires Pushed(items, positions, closed, group, fed, pushes)
    ensures Pushed(items, positions, Runs(s), group[index := Released(group[index])], fed[index := true],
                   pushes + [Push(group[index], current)])
  {
    CloseCounts(items, positions, s, closed, current, index);
    var closed' := closed + [current];
    assert closed' == Runs(s) && closed'[..|closed|] == closed && closed'[|closed|] == current;
    assert Belong([current[0]], items, positions);
  }

  lemma OpenRun(items: seq<Item>, positions: map<Name, nat>, s: seq<Record>, f: Record)
    requires Located(items, positions) && Belong(s + [f], items, positions) && (s == [] || s[|s| - 1].item != f.item)
    ensures f.item in positions && Collecting(items, positions, s + [f], Runs(s), [f], positions[f.item])
  {
    assert (s + [f])[|s|] == f;
    RunsAppend(s, f);
  }

  lemma ExtendRun(items: seq<Item>, positions: map<Name, nat>, s: seq<Record>, closed: seq<seq<Record>>,
                  current: seq<Record>,
                  index: nat, f: Record)
    requires Belong(s + [f], items, positions) && current != []
    requires Collecting(items, positions, s, closed, current, index) && s[|s| - 1].item == f.item
    ensures f.item in positions && Collecting(items, positions, s + [f], closed, current + [f], positions[f.item])
  {
    assert (s + [f])[|s|] == f;
    RunsAppend(s, f);
    assert Runs(s)[..|Runs(s)| - 1] == closed;
  }

  lemma BelongSoFar(s: seq<Record>, items: seq<Item>, positions: map<Name, nat>, k: nat)
    requires Belong(s, items, positions) && k < |s|
    ensures s[..k + 1] == s[..k] + [s[k]] && Belong(s[..k] + [s[k]], items, positions)
  {
  }

  class GroupLoader {
    const items: array<Item>
    const itemHasFeedback: array<bool>
    const positions: map<Name, nat>
    var itemFeedback: seq<Record>
    var itemGroupIndex: nat
    /** The calls of Push, in order. */
    var pushes: seq<Push>

    constructor (items: array<Item>, positions: map<Name, nat>)
      ensures this.items == items && this.positions == positions && fresh(itemHasFeedback)
      ensures itemFeedback == [] && Done(items[..], [])
    {
      this.items, this.positions := items, positions;
      itemHasFeedback := new bool[items.Length](_ => false);
      itemFeedback, itemGroupIndex, pushes := [], 0, [];
    }

    ghost predicate Done(original: seq<Item>, closed: seq<seq<Record>>)
      reads this, items, itemHasFeedback
    {
      Pushed(original, positions, closed, items[..], itemHasFeedback[..], pushes)
    }

    ghost predicate At(original: seq<Item>, s: seq<Record>, closed: seq<seq<Record>>)
      reads this
    {
      Collecting(original, positions, s, closed, itemFeedback, itemGroupIndex)
    }

    /** Push the collected item and release it. */
    method PushCollected(ghost original: seq<Item>, ghost s: seq<Record>, ghost closed: seq<seq<Record>>)
      requires At(original, s, closed) && Done(original, closed) && itemFeedback != []
      modifies this`pushes, items, itemHasFeedback
      ensures Done(original, Runs(s))
    {
      CloseRun(original, positions, s, closed, itemFeedback, itemGroupIndex, items[..], itemHasFeedback[..], pushes);
      itemHasFeedback[itemGroupIndex] := true;
      pushes := pushes + [Push(items[itemGroupIndex], itemFeedback)];
      items[itemGroupIndex] := Item(items[itemGroupIndex].id, "");
    }

    /** What the loop does with an accepted record. */
    method Collect(f: Record, ghost original: seq<Item>, ghost s: seq<Record>, ghost closed: seq<seq<Record>>)
      returns (ghost closed': seq<seq<Record>>)
      requires At(original, s, closed) && Done(original, closed) && Belong(s + [f], original, positions)
      modifies this`itemFeedback, this`itemGroupIndex, this`pushes, items, itemHasFeedback
      ensures At(original, s + [f], closed') && Done(original, closed')
    {
      closed' := closed;
      if |itemFeedback| == 0 {
        OpenRun(original, positions, s, f);
        itemFeedback := itemFeedback + [f];
        assert itemFeedback == [f];
      } else if itemFeedback[|itemFeedback| - 1].item == f.item {
        ExtendRun(original, positions, s, closed, itemFeedback, itemGroupIndex, f);
        itemFeedback := itemFeedback + [f];
      } else {
        PushCollected(original, s, closed);
        closed' := Runs(s);
        StartRun(f, original, s);
      }
      itemGroupIndex := positions[f.item];
    }

    /** Start collecting for the next item. */
    method StartRun(f: Record, ghost original: seq<Item>, ghost s: seq<Record>)
      requires Located(original, positions) && Belong(s + [f], original, positions)
        && (s == [] || s[|s| - 1].item != f.item)
      modifies this`itemFeedback
      ensures f.item in positions && Collecting(original, positions, s + [f], Runs(s), itemFeedback, positions[f.item])
    {
      OpenRun(original, positions, s, f);
      itemFeedback := [];
      itemFeedback := itemFeedback + [f];
      assert itemFeedback == [f];
    }

    /** `k` records are taken in. */
    ghost predicate Reading(original: seq<Item>, kept: seq<Record>, k: nat, closed: seq<seq<Record>>)
      reads this, items, itemHasFeedback
    {
      && k <= |kept| && Belong(kept, original, positions)
      && At(original, kept[..k], closed) && Done(original, closed)
    }

    method CollectNext(kept: seq<Record>, k: nat, ghost original: seq<Item>, ghost closed: seq<seq<Record>>)
      returns (ghost closed': seq<seq<Record>>)
      requires k < |kept| && Reading(original, kept, k, closed)
      modifies this`itemFeedback, this`itemGroupIndex, this`pushes, items, itemHasFeedback
      ensures Reading(original, kept, k + 1, closed')
    {
      BelongSoFar(kept, original, positions, k);
      closed' := Collect(kept[k], original, kept[..k], closed);
    }

    method CollectAll(kept: seq<Record>, ghost original: seq<Item>)
      requires Located(original, positions) && Belong(kept, original, positions) && itemFeedback == []
        && Done(original, [])
      modifies this`itemFeedback, this`itemGroupIndex, this`pushes, items, itemHasFeedback
      ensures Done(original, Runs(kept))
    {
      ghost var closed: seq<seq<Record>> := [];
      for k := 0 to |kept|
        invariant Reading(original, kept, k, closed)
      {
        closed := CollectNext(kept, k, original, closed);
      }
      assert kept[..|kept|] == kept;
      PushLast(original, kept, closed);
    }

    method PushLast(ghost original: seq<Item>, ghost s: seq<Record>, ghost closed: seq<seq<Record>>)
      requires At(original, s, closed) && Done(original, closed)
      modifies this`pushes, items, itemHasFeedback
      ensures Done(original, Runs(s))
    {
      if |itemFeedback| > 0 {
        PushCollected(original, s, closed);
      }
    }

    lemma DoneFacts(original: seq<Item>, runs: seq<seq<Record>>)
      requires Done(original, runs)
      ensures items.Length == itemHasFeedback.Length == |original|
      ensures KnownRuns(runs, original, positions) && pushes == RunPushes(original, positions, runs)
      ensures forall k :: 0 <= k < |original| ==> items[k] == ItemAfter(original, positions, runs, k)
      ensures forall k :: 0 <= k < |original| ==> (itemHasFeedback[k] <==> RunCount(runs, original[k].id) > 0)
    {
      assert forall k :: 0 <= k < |original| ==>
        items[k] == items[..][k] && itemHasFeedback[k] == itemHasFeedback[..][k];
    }

    /** The items that were never pushed. */
    method PushRest(ghost original: seq<Item>, ghost runs: seq<seq<Record>>)
      requires items.Length == itemHasFeedback.Length == |original| && forall j :: 0 <= j < |runs| ==> runs[j] != []
      requires forall k :: 0 <= k < |original| ==> items[k] == ItemAfter(original, positions, runs, k)
      requires forall k :: 0 <= k < |original| ==> (itemHasFeedback[k] <==> RunCount(runs, original[k].id) > 0)
      modifies this`pushes, items
      ensures pushes == old(pushes) + BarePushes(original, runs, |original|)
      ensures forall k :: 0 <= k < |original| ==> items[k] == Released(original[k])
    {
      for index := 0 to itemHasFeedback.Length
        invariant pushes == old(pushes) + BarePushes(original, runs, index)
        invariant forall k :: 0 <= k < index ==> items[k] == Released(original[k])
        invariant forall k :: index <= k < |original| ==> items[k] == ItemAfter(original, positions, runs, k)
      {
        if !itemHasFeedback[index] {
          pushes := pushes + [Push(items[index], [])];
          items[index] := Item(items[index].id, "");
        }
      }
    }
  }

  /** Stream the accepted records of a group and push its items. */
  method PushGroup(items: array<Item>, positions: map<Name, nat>, kept: seq<Record>) returns (pushes: seq<Push>)
    requires Located(items[..], positions) && Belong(kept, items[..], positions)
    modifies items
    ensures Belong(kept, old(items[..]), positions) && pushes == AllPushes(old(items[..]), positions, kept)
    ensures forall k :: 0 <= k < items.Length ==> items[k] == Item(old(items[k].id), "")
  {
    ghost var original := items[..];
    var loader := new GroupLoader(items, positions);
    loader.CollectAll(kept, original);
    loader.DoneFacts(original, Runs(kept));
    loader.PushRest(original, Runs(kept));
    pushes := loader.pushes;
  }

  predicate DistinctItems(groups: seq<seq<Item>>) {
    forall g, k, h, j :: 0 <= g < |groups| && 0 <= k < |groups[g]| && 0 <= h < |groups| && 0 <= j < |groups[h]| ==>
      groups[g][k].id == groups[h][j].id ==> g == h && k == j
  }

  /** The places of all items in their groups. */
  method LocateItems(groups: seq<seq<Item>>) returns (positions: map<Name, nat>)
    requires DistinctItems(groups)
    ensures forall g :: 0 <= g < |groups| ==> Located(groups[g], positions)
  {
    positions := map[];
    for g := 0 to |groups|
      invariant forall h :: 0 <= h < g ==> Located(groups[h], positions)
    {
      for k := 0 to |groups[g]|
        invariant forall h :: 0 <= h < g ==> Located(groups[h], positions)
        invariant Located(groups[g][..k], positions)
      {
        positions := positions[groups[g][k].id := k];
      }
      assert groups[g][..|groups[g]|] == groups[g];
    }
  }
}
