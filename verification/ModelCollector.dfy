/** The master's collection of out-of-date models: which blobs and vector
    collections it deletes, in which order, and what remains when calls to the
    stores fail. Blobs and collaborative filtering collections are identified by
    the model id in their name. */
module ModelCollector {
  import opened Collections

  /** What one collection run works from: the published ids, what both stores
      listed, and the ids that are kept in any case. */
  datatype Plan = Plan(factorsId: int, clickId: int, models: set<int>, collections: set<int>, keep: set<int>)

  /** The members of `s` that fewer than two other members exceed. */
  function NewestTwo(s: set<int>): set<int> {
    set x | x in s && |Above(s, x)| < 2
  }

  function Above(s: set<int>, x: int): set<int> {
    set y | y in s && y > x
  }

  /** The current model and the two newest that have both a collection and a
      blob are kept. */
  function MakePlan(factorsId: int, clickId: int, models: set<int>, collections: set<int>): Plan {
    Plan(factorsId, clickId, models, collections, {factorsId} + NewestTwo(models * collections))
  }

  function Timestamp(p: Plan): int {
    if p.factorsId <= p.clickId then p.factorsId else p.clickId
  }

  /** The blob of an outdated collection goes before the collection, unless the
      click model uses it. */
  predicate BlobGoesFirst(p: Plan, id: int) {
    id in p.collections && id !in p.keep && id in p.models && id != p.clickId
  }

  /** `models` are the listed blobs that this run has not removed yet. */
  predicate MayDrop(p: Plan, models: set<int>, id: int) {
    id in p.collections && id !in p.keep && (id !in models || id == p.clickId)
  }

  predicate MaySweep(p: Plan, models: set<int>, id: int) {
    id in models && id < Timestamp(p) && id !in p.keep
  }

  /** The calls of one run that fail. A blob can be tried in both loops. */
  datatype Fates = Fates(removeFails: set<int>, dropFails: set<int>, sweepFails: set<int>)

  function RemovedFirst(p: Plan, f: Fates): set<int> {
    set id | id in p.collections && BlobGoesFirst(p, id) && id !in f.removeFails
  }

  function Dropped(p: Plan, f: Fates): set<int> {
    set id | id in p.collections && MayDrop(p, p.models - RemovedFirst(p, f), id) && id !in f.dropFails
  }

  function Swept(p: Plan, f: Fates): set<int> {
    set id | id in p.models && MaySweep(p, p.models - RemovedFirst(p, f), id) && id !in f.sweepFails
  }

  /** The successful deletions, in the order of the calls. */
  datatype Event = BlobRemoved(id: int) | CollectionDropped(id: int)

  /** Whenever a collection was dropped, its own blob was absent, had been removed
      before, or is the click model's. */
  predicate DropsAreSafe(p: Plan, log: seq<Event>) {
    forall i :: 0 <= i < |log| && log[i].CollectionDropped? ==>
      log[i].id !in p.models || log[i].id == p.clickId || BlobRemoved(log[i].id) in log[..i]
  }

  class Stores {
    var blobs: set<int>
    var collections: set<int>
    ghost var log: seq<Event>

    constructor (blobs: set<int>, collections: set<int>)
      ensures this.blobs == blobs && this.collections == collections && log == []
    {
      this.blobs, this.collections, log := blobs, collections, [];
    }

    method RemoveBlob(id: int, fails: bool) returns (ok: bool)
      modifies this`blobs, this`log
      ensures ok == !fails
      ensures blobs == (if ok then old(blobs) - {id} else old(blobs))
      ensures log == (if ok then old(log) + [BlobRemoved(id)] else old(log))
    {
      ok := !fails;
      if ok {
        blobs := blobs - {id};
        log := log + [BlobRemoved(id)];
      }
    }

    method DeleteCollection(id: int, fails: bool) returns (ok: bool)
      modifies this`collections, this`log
      ensures ok == !fails
      ensures collections == (if ok then old(collections) - {id} else old(collections))
      ensures log == (if ok then old(log) + [CollectionDropped(id)] else old(log))
    {
      ok := !fails;
      if ok {
        collections := collections - {id};
        log := log + [CollectionDropped(id)];
      }
    }

    /** The loop over the outdated collections. */
    method RemoveOutdatedCollections(keep: set<int>, clickId: int, f: Fates, ghost p: Plan) returns (models: set<int>)
      requires p.keep == keep && p.clickId == clickId && p.models == blobs && p.collections == collections
      requires log == []
      modifies this
      ensures models == blobs == p.models - RemovedFirst(p, f)
      ensures collections == p.collections - Dropped(p, f)
      ensures DropsAreSafe(p, log)
    {
      models := blobs;
      var todo := collections;
      while todo != {}
        invariant todo <= p.collections
        invariant models == blobs == p.models - (RemovedFirst(p, f) - todo)
        invariant collections == p.collections - (Dropped(p, f) - todo)
        invariant DropsAreSafe(p, log)
        invariant forall id :: id in RemovedFirst(p, f) - todo ==> BlobRemoved(id) in log
        decreases todo
      {
        var id := PickOne(todo);
        todo := todo - {id};
        if id in keep {
          continue;
        }
        if id in models && id != clickId {
          LogStaysSafe(p, log, BlobRemoved(id));
          var removed := RemoveBlob(id, id in f.removeFails);
          if !removed {
            continue;
          }
          models := models - {id};
        }
        LogStaysSafe(p, log, CollectionDropped(id));
        var dropped := DeleteCollection(id, id in f.dropFails);
      }
    }

    /** The loop over the remaining blobs. */
    method SweepBlobs(models: set<int>, keep: set<int>, timestamp: int, f: Fates, ghost p: Plan)
      requires p.keep == keep && Timestamp(p) == timestamp
      requires models == blobs == p.models - RemovedFirst(p, f)
      requires DropsAreSafe(p, log)
      modifies this`blobs, this`log
      ensures blobs == models - Swept(p, f)
      ensures DropsAreSafe(p, log)
    {
      var todo := models;
      while todo != {}
        invariant todo <= models
        invariant blobs == models - (Swept(p, f) - todo)
        invariant DropsAreSafe(p, log)
        decreases todo
      {
        var id := PickOne(todo);
        todo := todo - {id};
        if id < timestamp && id !in keep {
          LogStaysSafe(p, log, BlobRemoved(id));
          var removed := RemoveBlob(id, id in f.sweepFails);
        }
      }
    }

    /** removeOutOfDateModels once both listings have succeeded. */
    method RemoveOutOfDate(factorsId: int, clickId: int, f: Fates) returns (ghost p: Plan)
      requires log == []
      modifies this
      ensures p == MakePlan(factorsId, clickId, old(blobs), old(collections))
      ensures collections == old(collections) - Dropped(p, f)
      ensures blobs == old(blobs) - RemovedFirst(p, f) - Swept(p, f)
      ensures DropsAreSafe(p, log)
    {
      p := MakePlan(factorsId, clickId, blobs, collections);
      var timestamp := if factorsId <= clickId then factorsId else clickId;
      var keep := KeepSet(factorsId, blobs, collections);
      var models := RemoveOutdatedCollections(keep, clickId, f, p);
      SweepBlobs(models, keep, timestamp, f, p);
    }
  }

  lemma LogStaysSafe(p: Plan, log: seq<Event>, e: Event)
    requires DropsAreSafe(p, log)
    requires e.CollectionDropped? ==> e.id !in p.models || e.id == p.clickId || BlobRemoved(e.id) in log
    ensures DropsAreSafe(p, log + [e])
  {
    forall i | 0 <= i < |log + [e]| && (log + [e])[i].CollectionDropped?
      ensures (log + [e])[i].id !in p.models || (log + [e])[i].id == p.clickId
              || BlobRemoved((log + [e])[i].id) in (log + [e])[..i]
    {
      assert (log + [e])[..i] == log[..i];
      assert log[..|log|] == log;
    }
  }

  predicate Descending(s: seq<int>) {
    forall i, j :: 0 <= i < j < |s| ==> s[i] > s[j]
  }

  /** Insertion into a descending list, for the sort of the complete ids. */
  method InsertDescending(s: seq<int>, x: int) returns (r: seq<int>)
    requires Descending(s) && x !in s
    ensures Descending(r) && forall y :: y in r <==> y == x || y in s
  {
    var k := 0;
    while k < |s| && s[k] > x
      invariant k <= |s| && forall i :: 0 <= i < k ==> s[i] > x
    {
      k := k + 1;
    }
    r := s[..k] + [x] + s[k..];
    assert s == s[..k] + s[k..];
  }

  /** The ids to keep: the current one and the first two of the complete ids in
      descending order. */
  method KeepSet(factorsId: int, models: set<int>, collections: set<int>) returns (keep: set<int>)
    ensures keep == {factorsId} + NewestTwo(models * collections)
  {
    var complete: seq<int> := [];
    var todo := collections;
    while todo != {}
      invariant todo <= collections && Descending(complete)
      invariant forall x :: x in complete <==> x in models * (collections - todo)
      decreases todo
    {
      var id := PickOne(todo);
      todo := todo - {id};
      if id in models {
        complete := InsertDescending(complete, id);
      }
    }
    var n := if |complete| <= 2 then |complete| else 2;
    keep := {factorsId} + set x | x in complete[..n];
    FirstTwoAreNewest(complete, models * collections);
  }

  lemma {:induction false} DescendingSize(s: seq<int>)
    requires Descending(s)
    ensures |set x | x in s| == |s|
  {
    if s != [] {
      DescendingSize(s[1..]);
      assert (set x | x in s) == (set x | x in s[1..]) + {s[0]};
    }
  }

  lemma FirstTwoAreNewest(s: seq<int>, ids: set<int>)
    requires Descending(s) && forall x :: x in s <==> x in ids
    ensures var n := if |s| <= 2 then |s| else 2;
      NewestTwo(ids) == set x | x in s[..n]
  {
    forall i | 0 <= i < |s|
      ensures |Above(ids, s[i])| == i
    {
      assert Above(ids, s[i]) == set x | x in s[..i];
      DescendingSize(s[..i]);
    }
  }

  /** Without store errors exactly the current collection and those of the two
      newest complete models remain. */
  lemma WithoutErrorsKeepsExactly(factorsId: int, clickId: int, models: set<int>, collections: set<int>)
    ensures collections - Dropped(MakePlan(factorsId, clickId, models, collections), Fates({}, {}, {}))
         == collections * ({factorsId} + NewestTwo(models * collections))
  {
  }

  /** Without store errors a blob remains if and only if its model is kept or is the
      click model, or it has no collection and is not older than both published
      models. */
  lemma WithoutErrorsLeavesBlobs(factorsId: int, clickId: int, models: set<int>, collections: set<int>)
    ensures var p, f := MakePlan(factorsId, clickId, models, collections), Fates({}, {}, {});
      forall id :: id in models - RemovedFirst(p, f) - Swept(p, f) <==>
        && id in models
        && (id == factorsId || id in NewestTwo(models * collections) || id == clickId
            || (id !in collections && (id >= factorsId || id >= clickId)))
  {
  }

  /** A dropped collection never leaves its own non-click blob behind, whatever
      calls fail. */
  lemma NoDropBesideOwnBlob(p: Plan, f: Fates)
    ensures forall id :: id in Dropped(p, f) && id in p.models && id != p.clickId ==> id in RemovedFirst(p, f)
  {
  }

  /** Neither published model loses anything, and the blobs of the kept models
      stay, whatever calls fail. */
  lemma PublishedSurvives(p: Plan, f: Fates)
    requires p.factorsId in p.keep
    ensures p.factorsId !in Dropped(p, f)
    ensures p.keep !! RemovedFirst(p, f) + Swept(p, f)
    ensures p.clickId !in RemovedFirst(p, f) + Swept(p, f)
  {
  }
}
