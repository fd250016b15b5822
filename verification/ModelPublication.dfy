/** How long published models can be served: what every restart and every collection
    has to find for the click model and for the factor model before the current
    one to survive a run. */
module ModelPublication {
  import opened ModelCollector
  import opened ModelLifecycle

  // ------------------------------------------------------------------
  // The published click model
  // ------------------------------------------------------------------

  predicate ClickPublished(s: State) {
    s.clickId != 0 ==> ClickServable(s, s.clickId)
  }

  /** A restart would publish no click model, or one whose blob is still there. */
  predicate RecordedClickPresent(s: State) {
    s.recordedClick == 0 || s.recordedClick in s.files
  }

  predicate RestartsFindClick(s: State, steps: seq<Step>)
    requires ValidRun(s, steps)
    decreases |steps|
  {
    steps == [] || ((steps[0].Restart? ==> RecordedClickPresent(s))
                    && RestartsFindClick(Apply(s, steps[0]), steps[1..]))
  }

  /** The published click model has its blob in every state of the run. */
  predicate ClickAlwaysPublished(s: State, steps: seq<Step>)
    requires ValidRun(s, steps)
    decreases |steps|
  {
    ClickPublished(s) && (steps == [] || ClickAlwaysPublished(Apply(s, steps[0]), steps[1..]))
  }

  lemma StepKeepsClick(s: State, step: Step)
    requires Inv(s) && ClickPublished(s) && Enabled(s, step)
    ensures ClickPublished(Apply(s, step)) <==> (step.Restart? ==> RecordedClickPresent(s))
  {
  }

  lemma {:induction false} ClickPublishedOverRun(s: State, steps: seq<Step>)
    requires Inv(s) && ClickPublished(s) && ValidRun(s, steps)
    ensures ClickAlwaysPublished(s, steps) <==> RestartsFindClick(s, steps)
    decreases |steps|
  {
    if steps != [] {
      StepKeepsInv(s, steps[0]);
      StepKeepsClick(s, steps[0]);
      if ClickPublished(Apply(s, steps[0])) {
        ClickPublishedOverRun(Apply(s, steps[0]), steps[1..]);
      }
    }
  }

  /** The published click model has its blob throughout a run if and only if every
      restart finds the blob of the recorded id, or no recorded id. */
  lemma PublishedClickServable(steps: seq<Step>)
    requires ValidRun(INITIAL, steps)
    ensures ClickAlwaysPublished(INITIAL, steps) <==> RestartsFindClick(INITIAL, steps)
  {
    ClickPublishedOverRun(INITIAL, steps);
  }

  // ------------------------------------------------------------------
  // The previous factor model
  // ------------------------------------------------------------------

  predicate PublishedInOrder(s: State) {
    && (forall i, j :: 0 <= i < j < |s.published| ==> s.published[i] < s.published[j])
    && (s.published == [] <==> s.factorsId == 0)
    && (s.published != [] ==> s.published[|s.published| - 1] == s.factorsId && s.published[0] > 0)
  }

  /** No blob of a factor model is left over from an unfinished training. */
  predicate NoOrphans(s: State) {
    forall id :: id in s.files && id in s.collections ==>
      id in s.published || ((s.phase.Writing? || s.phase.Written? || s.phase.Recorded?) && s.phase.id == id)
  }

  function Previous(s: State): int
    requires |s.published| >= 2
  {
    s.published[|s.published| - 2]
  }

  /** The factor model before the current one is complete, and a collection that is
      going on keeps it. */
  predicate PreviousKept(s: State) {
    |s.published| >= 2 ==>
      Servable(s, Previous(s)) && (s.phase.Collecting? ==> Previous(s) in s.phase.plan.keep)
  }

  /** Both stores together list nothing newer than the previous model but the
      current one. */
  predicate NothingBetween(s: State) {
    |s.published| >= 2 ==>
      forall id :: id in s.files && id in s.collections && id > Previous(s) ==> id == s.factorsId
  }

  /** Giving up or restarting does not leave a factor blob without a recorded id. */
  predicate LeavesNoOrphan(s: State, step: Step) {
    step.Abort? || step.Restart? ==> !((s.phase.Writing? || s.phase.Written?) && s.phase.payload.Users?)
  }

  predicate TidyRun(s: State, steps: seq<Step>)
    requires ValidRun(s, steps)
    decreases |steps|
  {
    steps == [] || (LeavesNoOrphan(s, steps[0]) && TidyRun(Apply(s, steps[0]), steps[1..]))
  }

  predicate SamePublished(s: State, s': State) {
    s'.published == s.published && s'.factorsId == s.factorsId
  }

  predicate Publishes(s: State, s': State) {
    s'.published == s.published + [s'.factorsId] && s'.factorsId > s.factorsId && s'.phase.Idle?
  }

  /** A step either publishes a newer factor model or changes nothing published. */
  lemma StepPublishes(s: State, step: Step)
    requires Inv(s) && Enabled(s, step)
    ensures SamePublished(s, Apply(s, step)) || Publishes(s, Apply(s, step))
  {
  }

  lemma StepKeepsOrder(s: State, step: Step)
    requires Inv(s) && PublishedInOrder(s) && Enabled(s, step)
    ensures PublishedInOrder(Apply(s, step))
  {
    StepPublishes(s, step);
    AppendKeepsOrder(s, Apply(s, step));
  }

  lemma AppendKeepsOrder(s: State, s': State)
    requires PublishedInOrder(s) && s.factorsId >= 0
    requires SamePublished(s, s') || Publishes(s, s')
    ensures PublishedInOrder(s')
  {
  }

  lemma StepKeepsNoOrphans(s: State, step: Step)
    requires Inv(s) && NoOrphans(s) && Enabled(s, step) && LeavesNoOrphan(s, step)
    ensures NoOrphans(Apply(s, step))
  {
  }

  /** The collection keeps the previous model if and only if nothing complete is
      newer than it except the current one. */
  lemma KeptIffNothingBetween(s: State)
    requires Inv(s) && PublishedInOrder(s) && |s.published| >= 2 && Servable(s, Previous(s))
    ensures Previous(s) in MakePlan(s.factorsId, s.clickId, s.files.Keys, s.collections).keep <==> NothingBetween(s)
  {
    var newer := Above(s.files.Keys * s.collections, Previous(s));
    assert Previous(s) in s.files.Keys * s.collections;
    assert Previous(s) < s.factorsId && s.factorsId in newer;
    if NothingBetween(s) {
      assert newer == {s.factorsId};
    } else {
      var id :| id in s.files && id in s.collections && id > Previous(s) && id != s.factorsId;
      SubsetSize({id, s.factorsId}, newer);
    }
  }

  lemma NoOrphansBetween(s: State)
    requires Inv(s) && PublishedInOrder(s) && NoOrphans(s) && s.phase.Idle?
    ensures NothingBetween(s)
  {
    if |s.published| >= 2 {
      forall id | id in s.files && id in s.collections && id > Previous(s)
        ensures id == s.factorsId
      {
        var i :| 0 <= i < |s.published| && s.published[i] == id;
      }
    }
  }

  lemma {:induction false} SubsetSize(a: set<int>, b: set<int>)
    requires a <= b
    ensures |a| <= |b|
  {
    assert b == a + (b - a);
  }

  lemma StepKeepsPrevious(s: State, step: Step)
    requires Inv(s) && PublishedInOrder(s) && PreviousKept(s) && Enabled(s, step)
    ensures PreviousKept(Apply(s, step)) <==> (step.BeginCollect? ==> NothingBetween(s))
  {
    StepPublishes(s, step);
    if Apply(s, step).published != s.published {
      PublishKeepsPrevious(s, step);
    } else if step.BeginCollect? && |s.published| >= 2 {
      KeptIffNothingBetween(s);
    } else if |s.published| >= 2 {
      OtherStepKeepsPrevious(s, step);
    }
  }

  /** The model that was current becomes the previous one. */
  lemma PublishKeepsPrevious(s: State, step: Step)
    requires Inv(s) && PublishedInOrder(s) && Enabled(s, step)
    requires Publishes(s, Apply(s, step))
    ensures PreviousKept(Apply(s, step)) && !step.BeginCollect?
  {
  }

  lemma OtherStepKeepsPrevious(s: State, step: Step)
    requires Inv(s) && |s.published| >= 2 && Servable(s, Previous(s)) && PreviousKept(s) && Enabled(s, step)
    requires Apply(s, step).published == s.published && !step.BeginCollect?
    ensures PreviousKept(Apply(s, step))
  {
  }

  predicate CollectsFindNothingBetween(s: State, steps: seq<Step>)
    requires ValidRun(s, steps)
    decreases |steps|
  {
    steps == [] || ((steps[0].BeginCollect? ==> NothingBetween(s))
                    && CollectsFindNothingBetween(Apply(s, steps[0]), steps[1..]))
  }

  predicate PreviousAlwaysKept(s: State, steps: seq<Step>)
    requires ValidRun(s, steps)
    decreases |steps|
  {
    PreviousKept(s) && (steps == [] || PreviousAlwaysKept(Apply(s, steps[0]), steps[1..]))
  }

  lemma {:induction false} PreviousKeptOverRun(s: State, steps: seq<Step>)
    requires Inv(s) && PublishedInOrder(s) && PreviousKept(s) && ValidRun(s, steps)
    ensures PreviousAlwaysKept(s, steps) <==> CollectsFindNothingBetween(s, steps)
    decreases |steps|
  {
    if steps != [] {
      StepKeepsInv(s, steps[0]);
      StepKeepsOrder(s, steps[0]);
      StepKeepsPrevious(s, steps[0]);
      if PreviousKept(Apply(s, steps[0])) {
        PreviousKeptOverRun(Apply(s, steps[0]), steps[1..]);
      }
    }
  }

  /** The factor model before the current one keeps its collection and its blob, and
      is kept by every collection, throughout a run if and only if every collection
      finds nothing complete between it and the current model. */
  lemma PreviousFactorsServable(steps: seq<Step>)
    requires ValidRun(INITIAL, steps)
    ensures PreviousAlwaysKept(INITIAL, steps) <==> CollectsFindNothingBetween(INITIAL, steps)
  {
    PreviousKeptOverRun(INITIAL, steps);
  }

  lemma {:induction false} TidyOverRun(s: State, steps: seq<Step>)
    requires Inv(s) && PublishedInOrder(s) && NoOrphans(s) && ValidRun(s, steps) && TidyRun(s, steps)
    ensures CollectsFindNothingBetween(s, steps) && PublishedInOrder(After(s, steps))
    decreases |steps|
  {
    if steps != [] {
      if steps[0].BeginCollect? {
        NoOrphansBetween(s);
      }
      StepKeepsInv(s, steps[0]);
      StepKeepsOrder(s, steps[0]);
      StepKeepsNoOrphans(s, steps[0]);
      TidyOverRun(Apply(s, steps[0]), steps[1..]);
    }
  }

  /** That holds in particular if no training leaves a blob behind without recording
      its id; published ids increase in any case. */
  lemma TidyRunsKeepPrevious(steps: seq<Step>)
    requires ValidRun(INITIAL, steps) && TidyRun(INITIAL, steps)
    ensures PreviousAlwaysKept(INITIAL, steps)
    ensures var s := After(INITIAL, steps);
      forall i, j :: 0 <= i < j < |s.published| ==> s.published[i] < s.published[j]
  {
    TidyOverRun(INITIAL, steps);
    PreviousFactorsServable(steps);
  }

  // ------------------------------------------------------------------
  // A collection that does not keep the previous model
  // ------------------------------------------------------------------

  /** The collection goes on to the last state of the run. */
  predicate KeepsCollecting(steps: seq<Step>) {
    forall k :: 0 <= k < |steps| ==> !steps[k].EndCollect? && !steps[k].Restart?
  }

  /** The first loop of the collection has nothing left to delete, which is how it
      ends when no call fails. */
  predicate NothingToDelete(s: State) {
    && s.phase.Collecting?
    && (forall id :: BlobGoesFirst(s.phase.plan, id) ==> id !in s.phase.models)
    && (forall id :: MayDrop(s.phase.plan, s.phase.models, id) ==> id !in s.collections)
  }

  lemma {:induction false} PlanStays(s: State, steps: seq<Step>)
    requires s.phase.Collecting? && ValidRun(s, steps) && KeepsCollecting(steps)
    ensures After(s, steps).phase.Collecting? && After(s, steps).phase.plan == s.phase.plan
    ensures After(s, steps).published == s.published
    decreases |steps|
  {
    if steps != [] {
      PlanStays(Apply(s, steps[0]), steps[1..]);
    }
  }

  /** If something else is newer than the previous model, a collection in which no
      call fails removes the previous model, in whatever order it works. */
  lemma CollectionRemovesPrevious(s: State, steps: seq<Step>)
    requires Inv(s) && PublishedInOrder(s) && s.phase.Idle? && |s.published| >= 2 && Servable(s, Previous(s))
    requires !NothingBetween(s)
    requires ValidRun(Apply(s, BeginCollect), steps) && KeepsCollecting(steps)
    requires NothingToDelete(After(Apply(s, BeginCollect), steps))
    ensures !Servable(After(Apply(s, BeginCollect), steps), Previous(s))
  {
    KeptIffNothingBetween(s);
    PlanStays(Apply(s, BeginCollect), steps);
    var end := After(Apply(s, BeginCollect), steps);
    assert Previous(s) in end.phase.plan.collections && Previous(s) !in end.phase.plan.keep;
    assert BlobGoesFirst(end.phase.plan, Previous(s));
  }

  /** The same on the result of the whole collection. */
  lemma FailureFreeDropsPrevious(s: State)
    requires Inv(s) && PublishedInOrder(s) && |s.published| >= 2 && Servable(s, Previous(s))
    ensures Previous(s) in Dropped(MakePlan(s.factorsId, s.clickId, s.files.Keys, s.collections), Fates({}, {}, {}))
       <==> !NothingBetween(s)
  {
    KeptIffNothingBetween(s);
    WithoutErrorsKeepsExactly(s.factorsId, s.clickId, s.files.Keys, s.collections);
  }
}
