/** The lock-free maximum: several writers bring timestamps for the same user and
    item, each with LoadOrStore and then CompareAndSwap until one of them settles
    its timestamp. A run is any interleaving of these atomic calls. */
module CasMaximum {
  import opened Collections

  /** Before LoadOrStore; before CompareAndSwap with the loaded timestamp; settled. */
  datatype Phase = Loading | Comparing(seen: int) | Done

  datatype Writer = Writer(time: int, phase: Phase)

  datatype State = State(stored: Option<int>, writers: seq<Writer>)

  predicate Enabled(st: State, w: nat) {
    w < |st.writers| && !st.writers[w].phase.Done?
  }

  /** The next call of writer `w`. */
  function Step(st: State, w: nat): (r: State)
    requires Enabled(st, w)
    ensures |r.writers| == |st.writers|
  {
    var me := st.writers[w];
    match me.phase
    case Loading =>
      if st.stored.None? then State(Some(me.time), st.writers[w := me.(phase := Done)])
      else if me.time > st.stored.value then st.(writers := st.writers[w := me.(phase := Comparing(st.stored.value))])
      else st.(writers := st.writers[w := me.(phase := Done)])
    case Comparing(seen) =>
      if st.stored == Some(seen) then State(Some(me.time), st.writers[w := me.(phase := Done)])
      else st.(writers := st.writers[w := me.(phase := Loading)])
  }

  predicate CanRun(st: State, run: seq<nat>)
    decreases |run|
  {
    run == [] || (Enabled(st, run[0]) && CanRun(Step(st, run[0]), run[1..]))
  }

  function Run(st: State, run: seq<nat>): (r: State)
    requires CanRun(st, run)
    ensures |r.writers| == |st.writers|
    decreases |run|
  {
    if run == [] then st else Run(Step(st, run[0]), run[1..])
  }

  predicate Initial(st: State) {
    st.stored.None? && forall w :: 0 <= w < |st.writers| ==> st.writers[w].phase.Loading?
  }

  predicate WriterOk(w: Writer, stored: Option<int>) {
    match w.phase
    case Loading => true
    case Comparing(seen) => stored.Some? && seen < w.time && seen <= stored.value
    case Done => stored.Some? && w.time <= stored.value
  }

  predicate Inv(st: State) {
    && (forall w :: 0 <= w < |st.writers| ==> WriterOk(st.writers[w], st.stored))
    && (st.stored.Some? ==> exists w :: 0 <= w < |st.writers| && st.writers[w].time == st.stored.value)
  }

  predicate AtMost(a: Option<int>, b: Option<int>) {
    a.None? || (b.Some? && a.value <= b.value)
  }

  /** One call keeps the invariant, never lowers the timestamp and changes no
      writer's own timestamp; a CompareAndSwap fails only if the stored timestamp
      has become strictly larger than the one it loaded. */
  lemma StepFacts(st: State, w: nat)
    requires Inv(st) && Enabled(st, w)
    ensures var st' := Step(st, w);
      && Inv(st') && AtMost(st.stored, st'.stored)
      && (forall v :: 0 <= v < |st.writers| ==> st'.writers[v].time == st.writers[v].time)
      && (st.writers[w].phase.Comparing? && st'.writers[w].phase.Loading? ==>
          st.stored.value > st.writers[w].phase.seen)
  {
    var st', me := Step(st, w), st.writers[w];
    forall v | 0 <= v < |st.writers|
      ensures WriterOk(st'.writers[v], st'.stored)
    {
      assert WriterOk(st.writers[v], st.stored);
    }
    if st'.stored != st.stored {
      assert st'.writers[w].time == st'.stored.value;
    } else if st.stored.Some? {
      var v :| 0 <= v < |st.writers| && st.writers[v].time == st.stored.value;
      assert st'.writers[v].time == st'.stored.value;
    }
  }

  predicate AllDone(st: State) {
    forall w :: 0 <= w < |st.writers| ==> st.writers[w].phase.Done?
  }

  /** The stored timestamp never decreases, in any run. */
  lemma {:induction false} RunFacts(st: State, run: seq<nat>)
    requires Inv(st) && CanRun(st, run)
    ensures Inv(Run(st, run)) && AtMost(st.stored, Run(st, run).stored)
    ensures forall v :: 0 <= v < |st.writers| ==> Run(st, run).writers[v].time == st.writers[v].time
    decreases |run|
  {
    if run != [] {
      StepFacts(st, run[0]);
      RunFacts(Step(st, run[0]), run[1..]);
    }
  }

  /** When all writers are done the maximum of what they wrote is stored. */
  lemma EndsAsMaximum(st: State, run: seq<nat>)
    requires Initial(st) && st.writers != [] && CanRun(st, run) && AllDone(Run(st, run))
    ensures Run(st, run).stored.Some?
    ensures forall w :: 0 <= w < |st.writers| ==> st.writers[w].time <= Run(st, run).stored.value
    ensures exists w :: 0 <= w < |st.writers| && st.writers[w].time == Run(st, run).stored.value
  {
    RunFacts(st, run);
    var end := Run(st, run);
    assert WriterOk(end.writers[0], end.stored);
    forall w | 0 <= w < |st.writers|
      ensures st.writers[w].time <= end.stored.value
    {
      assert WriterOk(end.writers[w], end.stored);
    }
    var w :| 0 <= w < |end.writers| && end.writers[w].time == end.stored.value;
    assert st.writers[w].time == end.stored.value;
  }

  /** If a writer waits between loading `seen` and a failing CompareAndSwap, then one
      of the calls in between was another writer's and strictly raised the
      timestamp. */
  lemma {:induction false} FailureHasCause(st: State, w: nat, between: seq<nat>) returns (i: nat)
    requires Inv(st) && Enabled(st, w) && st.stored.Some? && st.writers[w].phase == Comparing(st.stored.value)
    requires CanRun(st, between) && forall k :: 0 <= k < |between| ==> between[k] != w
    requires Enabled(Run(st, between), w) && Step(Run(st, between), w).writers[w].phase.Loading?
    ensures i < |between| && CanRun(st, between[..i]) && Enabled(Run(st, between[..i]), between[i])
    ensures var before := Run(st, between[..i]);
      before.stored.Some? && Step(before, between[i]).stored.Some?
        && before.stored.value < Step(before, between[i]).stored.value
    decreases |between|
  {
    OthersLeaveWriter(st, w, between);
    RunFacts(st, between);
    var next := Step(st, between[0]);
    StepFacts(st, between[0]);
    if next.stored != st.stored {
      i := 0;
      assert between[..0] == [];
    } else {
      var j := FailureHasCause(next, w, between[1..]);
      i := j + 1;
      assert between[..i][1..] == between[1..][..j] && between[..i][0] == between[0];
    }
  }

  lemma {:induction false} OthersLeaveWriter(st: State, w: nat, others: seq<nat>)
    requires CanRun(st, others) && w < |st.writers| && forall k :: 0 <= k < |others| ==> others[k] != w
    ensures Run(st, others).writers[w] == st.writers[w]
    decreases |others|
  {
    if others != [] {
      OthersLeaveWriter(Step(st, others[0]), w, others[1..]);
    }
  }

  // ------------------------------------------------------------------
  // Termination
  // ------------------------------------------------------------------

  /** How many writers bring a timestamp above the stored one. */
  function Above(writers: seq<Writer>, stored: Option<int>): nat {
    if writers == [] then 0
    else Above(writers[..|writers| - 1], stored)
         + if stored.None? || writers[|writers| - 1].time > stored.value then 1 else 0
  }

  function Weight(w: Writer, stored: Option<int>): nat {
    match w.phase
    case Loading => 2
    case Comparing(seen) => if stored == Some(seen) then 1 else 3
    case Done => 0
  }

  function Weights(writers: seq<Writer>, stored: Option<int>): nat {
    if writers == [] then 0 else Weights(writers[..|writers| - 1], stored) + Weight(writers[|writers| - 1], stored)
  }

  function Measure(st: State): nat {
    (2 * |st.writers| + 1) * Above(st.writers, st.stored) + Weights(st.writers, st.stored)
  }

  lemma {:induction false} ReplaceWriter(writers: seq<Writer>, w: nat, replacement: Writer, stored: Option<int>)
    requires w < |writers| && replacement.time == writers[w].time
    ensures Weights(writers[w := replacement], stored)
      == Weights(writers, stored) - Weight(writers[w], stored) + Weight(replacement, stored)
    ensures Above(writers[w := replacement], stored) == Above(writers, stored)
    decreases |writers|
  {
    var changed := writers[w := replacement];
    if w < |writers| - 1 {
      ReplaceWriter(writers[..|writers| - 1], w, replacement, stored);
      assert changed[..|writers| - 1] == writers[..|writers| - 1][w := replacement];
    } else {
      assert changed[..|writers| - 1] == writers[..|writers| - 1];
    }
  }

  /** A raise lets every writer's weight grow by at most 2, but takes at least the
      writer with the new timestamp off the list of those above. */
  lemma {:induction false} RaiseStored(writers: seq<Writer>, stored: Option<int>, time: int)
    requires stored.Some? ==> stored.value < time
    requires stored.None? ==> forall v :: 0 <= v < |writers| ==> !writers[v].phase.Comparing?
    ensures Weights(writers, Some(time)) <= Weights(writers, stored) + 2 * |writers|
    ensures Above(writers, Some(time)) <= Above(writers, stored)
    ensures (exists v :: 0 <= v < |writers| && writers[v].time == time) ==>
      Above(writers, Some(time)) < Above(writers, stored)
  {
    if writers != [] {
      RaiseStored(writers[..|writers| - 1], stored, time);
      if v :| 0 <= v < |writers| && writers[v].time == time {
        if v < |writers| - 1 {
          assert writers[..|writers| - 1][v].time == time;
        }
      }
    }
  }

  lemma RaisingStep(st: State, w: nat)
    requires Inv(st) && Enabled(st, w) && Step(st, w).stored != st.stored
    ensures Measure(Step(st, w)) < Measure(st)
  {
    var me, st' := st.writers[w], Step(st, w);
    assert WriterOk(me, st.stored);
    assert st'.stored == Some(me.time) && st'.writers == st.writers[w := me.(phase := Done)];
    if st.stored.None? {
      forall v | 0 <= v < |st.writers|
        ensures !st.writers[v].phase.Comparing?
      {
        assert WriterOk(st.writers[v], st.stored);
      }
    }
    RaiseStored(st.writers, st.stored, me.time);
    ReplaceWriter(st.writers, w, me.(phase := Done), st'.stored);
    var n, a, a' := |st.writers|, Above(st.writers, st.stored), Above(st'.writers, st'.stored);
    assert a' + 1 <= a;
    Scaled(2 * n + 1, a', a);
  }

  lemma {:induction false} Scaled(n: nat, a: nat, b: nat)
    requires a + 1 <= b
    ensures n * a + n <= n * b
    decreases b
  {
    assert n * b == n * (b - 1) + n;
    if a + 1 < b {
      Scaled(n, a, b - 1);
    }
  }

  /** Every call lowers the measure: a failed CompareAndSwap pays with the raise that
      made it fail. */
  lemma StepLowersMeasure(st: State, w: nat)
    requires Inv(st) && Enabled(st, w)
    ensures Measure(Step(st, w)) < Measure(st)
  {
    if Step(st, w).stored != st.stored {
      RaisingStep(st, w);
    } else {
      assert WriterOk(st.writers[w], st.stored);
      ReplaceWriter(st.writers, w, Step(st, w).writers[w], st.stored);
    }
  }

  lemma {:induction false} RunBound(st: State, run: seq<nat>)
    requires Inv(st) && CanRun(st, run)
    ensures |run| + Measure(Run(st, run)) <= Measure(st)
    decreases |run|
  {
    if run != [] {
      StepFacts(st, run[0]);
      StepLowersMeasure(st, run[0]);
      RunBound(Step(st, run[0]), run[1..]);
    }
  }

  lemma {:induction false} InitialMeasure(writers: seq<Writer>)
    requires forall w :: 0 <= w < |writers| ==> writers[w].phase.Loading?
    ensures Above(writers, None) == |writers| && Weights(writers, None) == 2 * |writers|
  {
    if writers != [] {
      InitialMeasure(writers[..|writers| - 1]);
    }
  }

  /** However the calls interleave, n writers together make at most (2n + 3) n calls. */
  lemma WritersTerminate(st: State, run: seq<nat>)
    requires Initial(st) && CanRun(st, run)
    ensures |run| <= (2 * |st.writers| + 3) * |st.writers|
  {
    RunBound(st, run);
    InitialMeasure(st.writers);
  }
}
