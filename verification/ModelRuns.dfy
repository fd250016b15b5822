/** Runs of the protocol that lose a model, or mix two. */
module ModelRuns {
  import opened Collections
  import opened ModelCollector
  import opened ModelLifecycle
  import opened ModelPublication

  lemma {:induction false} Concat(s: State, a: seq<Step>, b: seq<Step>)
    requires ValidRun(s, a) && ValidRun(After(s, a), b)
    ensures ValidRun(s, a + b) && After(s, a + b) == After(After(s, a), b)
    decreases |a|
  {
    if a == [] {
      assert a + b == b;
    } else {
      Concat(Apply(s, a[0]), a[1..], b);
      assert (a + b)[1..] == a[1..] + b;
    }
  }

  ghost predicate Reachable(s: State) {
    exists steps :: ValidRun(INITIAL, steps) && After(INITIAL, steps) == s
  }

  lemma ReachInitial()
    ensures Reachable(INITIAL)
  {
    assert ValidRun(INITIAL, []) && After(INITIAL, []) == INITIAL;
  }

  lemma ReachNext(s: State, step: Step)
    requires Reachable(s) && Enabled(s, step)
    ensures Reachable(Apply(s, step))
  {
    var steps :| ValidRun(INITIAL, steps) && After(INITIAL, steps) == s;
    assert [step][1..] == [] && ValidRun(Apply(s, step), []);
    assert ValidRun(s, [step]) && After(s, [step]) == After(Apply(s, step), []);
    Concat(INITIAL, steps, [step]);
  }

  function Published(s: State, id: int, users: int): State {
    s.(clock := id, collections := s.collections + {id}, files := s.files[id := Whole(Users(users))],
       written := s.written[id := Users(users)], recordedFactors := id, factorsId := id,
       published := s.published + [id], phase := Idle)
  }

  /** An undisturbed training publishes its model. */
  lemma ReachPublished(s: State, id: int, users: int)
    requires Reachable(s) && s.phase.Idle? && id > s.clock
    ensures Reachable(Published(s, id, users))
  {
    var s1 := WriteFactors(s, id, users);
    ReachNext(s1, RecordFactors);
    var s2 := Apply(s1, RecordFactors);
    ReachNext(s2, ShowFactors);
  }

  lemma WriteFactors(s: State, id: int, users: int) returns (s': State)
    requires Reachable(s) && s.phase.Idle? && id > s.clock
    ensures Reachable(s')
    ensures s' == s.(clock := id, collections := s.collections + {id}, files := s.files[id := Whole(Users(users))],
                     written := s.written[id := Users(users)], phase := Written(id, Users(users)))
  {
    ReachNext(s, BeginFactors(id, users));
    var s1 := Apply(s, BeginFactors(id, users));
    ReachNext(s1, CreateBlob);
    var s2 := Apply(s1, CreateBlob);
    ReachNext(s2, FinishBlob);
    s' := Apply(s2, FinishBlob);
    assert s.files[id := Partial][id := Whole(Users(users))] == s.files[id := Whole(Users(users))];
  }

  /** A training that stops after creating its blob makes the next collection
      delete the previously published model. */
  lemma OrphanDisplacesPrevious() returns (s: State)
    ensures Reachable(s) && s.published == [1, 3] && !Servable(s, 1)
  {
    ReachInitial();
    ReachPublished(INITIAL, 1, 10);
    var s1 := LeaveOrphan(Published(INITIAL, 1, 10), 2);
    ReachPublished(s1, 3, 30);
    var s2 := Published(s1, 3, 30);
    assert s2.files.Keys == {1, 2, 3} && s2.collections == {1, 2, 3};
    s := CollectOldest(s2);
  }

  /** A training that gives up after creating its blob. */
  lemma LeaveOrphan(s: State, id: int) returns (s': State)
    requires Reachable(s) && s.phase.Idle? && id > s.clock
    ensures Reachable(s')
    ensures s' == s.(clock := id, files := s.files[id := Partial], collections := s.collections + {id})
  {
    ReachNext(s, BeginFactors(id, 20));
    var s1 := Apply(s, BeginFactors(id, 20));
    ReachNext(s1, CreateBlob);
    var s2 := Apply(s1, CreateBlob);
    ReachNext(s2, Abort);
    s' := Apply(s2, Abort);
  }

  lemma CollectOldest(s: State) returns (s': State)
    requires Reachable(s) && s.phase.Idle? && s.files.Keys == {1, 2, 3} && s.collections == {1, 2, 3}
    requires s.factorsId == 3 && s.clickId == 0
    ensures Reachable(s') && s'.published == s.published && 1 !in s'.collections
  {
    ReachNext(s, BeginCollect);
    var s1 := Apply(s, BeginCollect);
    assert 1 !in s1.phase.plan.keep by {
      assert Above({1, 2, 3}, 1) == {2, 3};
      assert s.files.Keys * s.collections == {1, 2, 3};
    }
    s' := RemoveModel(s1, 1);
  }

  lemma RemoveModel(s: State, id: int) returns (s': State)
    requires Reachable(s) && s.phase.Collecting? && BlobGoesFirst(s.phase.plan, id) && id in s.phase.models
    ensures Reachable(s') && s'.published == s.published && id !in s'.collections
  {
    ReachNext(s, RemoveBlob(id));
    var s1 := Apply(s, RemoveBlob(id));
    ReachNext(s1, DropCollection(id));
    s' := Apply(s1, DropCollection(id));
  }

  /** A click model that is shown but could not be recorded lets a collection
      remove the blob of the recorded one, which a restart then publishes. */
  lemma RestartRevivesCollectedClick() returns (s: State)
    ensures Reachable(s) && s.clickId == 1 && !ClickServable(s, 1)
  {
    ReachInitial();
    var s1 := ShowNewClick(INITIAL, 1, 10);
    ReachNext(s1, RecordClick);
    var s2 := Apply(s1, RecordClick);
    var s3 := ShowNewClick(s2, 2, 20);
    ReachNext(s3, Abort);
    var s4 := Apply(s3, Abort);
    ReachPublished(s4, 3, 30);
    var s5 := Published(s4, 3, 30);
    ReachNext(s5, BeginCollect);
    var s6 := Apply(s5, BeginCollect);
    assert 1 !in s5.collections;
    ReachNext(s6, SweepBlob(1));
    var s7 := Apply(s6, SweepBlob(1));
    ReachNext(s7, Restart);
    s := Apply(s7, Restart);
  }

  lemma ShowNewClick(s: State, id: int, model: int) returns (s': State)
    requires Reachable(s) && s.phase.Idle? && id > s.clock
    ensures Reachable(s')
    ensures s' == s.(clock := id, files := s.files[id := Whole(Click(model))],
                     written := s.written[id := Click(model)], clickId := id, phase := ClickShown(id))
  {
    ReachNext(s, BeginClick(id, model));
    var s1 := Apply(s, BeginClick(id, model));
    ReachNext(s1, FinishBlob);
    var s2 := Apply(s1, FinishBlob);
    ReachNext(s2, ShowClick);
    s' := Apply(s2, ShowClick);
    assert s.files[id := Partial][id := Whole(Click(model))] == s.files[id := Whole(Click(model))];
  }

  /** A Sync between opening the blob and installing it makes the worker file the
      factors of one model under the id of the next. */
  lemma RacingSyncMixesModels() returns (s: State)
    ensures Reachable(s)
    ensures s.factors.installedId == 2 && s.factors.installed == Some(Users(10))
    ensures 2 in s.written && s.written[2] == Users(20)
  {
    var first := WorkerOpensFirst();
    ReachPublished(first, 2, 20);
    var s1 := Published(first, 2, 20);
    ReachNext(s1, Sync);
    var s2 := Apply(s1, Sync);
    ReachNext(s2, PullApprove(ForFactors));
    var s3 := Apply(s2, PullApprove(ForFactors));
    ReachNext(s3, PullInstall(ForFactors));
    s := Apply(s3, PullInstall(ForFactors));
  }

  /** Model 1 is published and a worker has opened its blob. */
  lemma WorkerOpensFirst() returns (s: State)
    ensures Reachable(s)
    ensures s == Apply(Apply(Apply(Published(INITIAL, 1, 10), Sync), PullCheck(ForFactors)), PullOpen(ForFactors))
  {
    ReachInitial();
    ReachPublished(INITIAL, 1, 10);
    var s1 := Published(INITIAL, 1, 10);
    ReachNext(s1, Sync);
    var s2 := Apply(s1, Sync);
    ReachNext(s2, PullCheck(ForFactors));
    var s3 := Apply(s2, PullCheck(ForFactors));
    ReachNext(s3, PullOpen(ForFactors));
    s := Apply(s3, PullOpen(ForFactors));
  }
}
