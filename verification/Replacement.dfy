/** Putting items the user already knows back among the candidates, and lowering
    their scores after ranking; with the cache of items that both steps read. */
module Replacement {
  import opened Collections

  datatype Item = Item(id: string, hidden: bool)

  /** A feedback of the user, with the verdicts of the configured type expressions. */
  datatype Feedback = Feedback(item: string, positive: bool, read: bool, negative: bool)

  datatype Candidate = Candidate(id: string, score: real)

  // ------------------------------------------------------------------
  // The item cache
  // ------------------------------------------------------------------

  /** A database with its items under their own ids. */
  predicate Keyed(db: map<string, Item>) {
    forall id :: id in db ==> db[id].id == id
  }

  /** What a query for `ids` may answer: the items that exist, in any order. */
  predicate Answers(response: seq<Item>, db: map<string, Item>, ids: seq<string>) {
    && (forall k :: 0 <= k < |response| ==>
        response[k].id in ids && response[k].id in db && db[response[k].id] == response[k])
    && (forall k :: 0 <= k < |ids| && ids[k] in db ==> db[ids[k]] in response)
  }

  function Missing(data: map<string, Item>, ids: seq<string>): seq<string> {
    if ids == [] then []
    else Missing(data, ids[..|ids| - 1]) + if ids[|ids| - 1] in data then [] else [ids[|ids| - 1]]
  }

  /** The visible items of the database under the ids, in that order. */
  function Lookup(db: map<string, Item>, ids: seq<string>): seq<Item> {
    if ids == [] then []
    else
      var id := ids[|ids| - 1];
      Lookup(db, ids[..|ids| - 1]) + if id in db && !db[id].hidden then [db[id]] else []
  }

  lemma {:induction false} MissingFacts(data: map<string, Item>, ids: seq<string>)
    ensures forall id :: id in Missing(data, ids) <==> id in ids && id !in data
  {
    if ids != [] {
      MissingFacts(data, ids[..|ids| - 1]);
      assert ids == ids[..|ids| - 1] + [ids[|ids| - 1]];
    }
  }

  lemma {:induction false} LookupAgrees(a: map<string, Item>, b: map<string, Item>, ids: seq<string>)
    requires forall k :: 0 <= k < |ids| ==> (ids[k] in a <==> ids[k] in b) && (ids[k] in a ==> a[ids[k]] == b[ids[k]])
    ensures Lookup(a, ids) == Lookup(b, ids)
  {
    if ids != [] {
      LookupAgrees(a, b, ids[..|ids| - 1]);
    }
  }

  lemma {:induction false} LookupFacts(db: map<string, Item>, ids: seq<string>)
    requires Keyed(db)
    ensures forall item :: item in Lookup(db, ids) <==>
      item.id in ids && item.id in db && db[item.id] == item && !item.hidden
  {
    if ids != [] {
      var front, last := ids[..|ids| - 1], ids[|ids| - 1];
      LookupFacts(db, front);
      assert ids == front + [last];
    }
  }

  /** The answer keeps the order of the request, and its repeats. */
  lemma {:induction false} LookupInOrder(db: map<string, Item>, ids: seq<string>) returns (at: seq<nat>)
    ensures |at| == |Lookup(db, ids)|
    ensures forall j :: 0 <= j < |at| ==> at[j] < |ids| && ids[at[j]] in db && Lookup(db, ids)[j] == db[ids[at[j]]]
    ensures forall j, k :: 0 <= j < k < |at| ==> at[j] < at[k]
    ensures forall p: nat :: p < |ids| ==> (p in at <==> ids[p] in db && !db[ids[p]].hidden)
  {
    if ids == [] {
      at := [];
    } else {
      var n := |ids| - 1;
      assert ids == ids[..n] + [ids[n]];
      at := LookupInOrder(db, ids[..n]);
      if ids[n] in db && !db[ids[n]].hidden {
        at := at + [n];
      }
    }
  }

  class ItemCache {
    const db: map<string, Item>
    var data: map<string, Item>

    /** The cache holds items of the database. */
    ghost predicate Valid()
      reads this
    {
      Keyed(db) && forall id :: id in data ==> id in db && data[id] == db[id]
    }

    constructor (db: map<string, Item>)
      requires Keyed(db)
      ensures Valid() && this.db == db && data == map[]
    {
      this.db, data := db, map[];
    }

    method Requests(ids: seq<string>) returns (requests: seq<string>)
      ensures requests == Missing(data, ids)
    {
      requests := [];
      for k := 0 to |ids|
        invariant requests == Missing(data, ids[..k])
      {
        assert ids[..k + 1][..k] == ids[..k];
        if ids[k] !in data {
          requests := requests + [ids[k]];
        }
      }
      assert ids[..|ids|] == ids;
    }

    method Remember(response: seq<Item>, ghost requests: seq<string>)
      requires Valid() && Answers(response, db, requests)
      modifies this
      ensures Valid() && data.Keys == old(data.Keys) + set k | 0 <= k < |response| :: response[k].id
    {
      for i := 0 to |response|
        invariant Valid() && data.Keys == old(data.Keys) + set k | 0 <= k < i :: response[k].id
      {
        data := data[response[i].id := response[i]];
      }
    }

    /** The cache cannot be seen: whatever it holds, the answer is that of the
        database. None is a failed query. */
    method GetSlice(ids: seq<string>, response: Option<seq<Item>>) returns (items: Option<seq<Item>>)
      requires Valid() && (response.Some? ==> Answers(response.value, db, Missing(data, ids)))
      modifies this
      ensures Valid() && old(data.Keys) <= data.Keys
      ensures items == if response.None? then None else Some(Lookup(db, ids))
      ensures response.Some? ==> forall k :: 0 <= k < |ids| && ids[k] in db ==> ids[k] in data
    {
      var requests := Requests(ids);
      if response.None? {
        return None;
      }
      MissingFacts(data, ids);
      Remember(response.value, requests);
      var r := [];
      for k := 0 to |ids|
        invariant r == Lookup(data, ids[..k])
      {
        assert ids[..k + 1][..k] == ids[..k];
        if ids[k] in data {
          var item := data[ids[k]];
          if !item.hidden {
            r := r + [item];
          }
        }
      }
      assert ids[..|ids|] == ids;
      forall k | 0 <= k < |ids|
        ensures ids[k] in data <==> ids[k] in db
      {
        if ids[k] in db && ids[k] !in old(data) {
          assert ids[k] in Missing(old(data), ids);
          var m :| 0 <= m < |requests| && requests[m] == ids[k];
          assert db[requests[m]] in response.value;
        }
      }
      LookupAgrees(data, db, ids);
      items := Some(r);
    }
  }

  // ------------------------------------------------------------------
  // Replacement candidates
  // ------------------------------------------------------------------

  function PositiveItems(feedbacks: seq<Feedback>): set<string> {
    set f | f in feedbacks && f.positive :: f.item
  }

  function KnownItems(feedbacks: seq<Feedback>): set<string> {
    set f | f in feedbacks && (f.positive || f.read) :: f.item
  }

  predicate DistinctIds(candidates: seq<Candidate>) {
    forall j, k :: 0 <= j < k < |candidates| ==> candidates[j].id != candidates[k].id
  }

  function Ids(candidates: seq<Candidate>): set<string> {
    set c | c in candidates :: c.id
  }

  method CollectItems(feedbacks: seq<Feedback>) returns (positiveItems: set<string>, distinctItems: set<string>)
    ensures positiveItems == PositiveItems(feedbacks) && distinctItems == KnownItems(feedbacks)
  {
    positiveItems, distinctItems := {}, {};
    for k := 0 to |feedbacks|
      invariant positiveItems == PositiveItems(feedbacks[..k]) && distinctItems == KnownItems(feedbacks[..k])
    {
      assert feedbacks[..k + 1] == feedbacks[..k] + [feedbacks[k]];
      if feedbacks[k].positive {
        positiveItems := positiveItems + {feedbacks[k].item};
        distinctItems := distinctItems + {feedbacks[k].item};
      } else if feedbacks[k].read {
        distinctItems := distinctItems + {feedbacks[k].item};
      }
    }
    assert feedbacks[..|feedbacks|] == feedbacks;
  }

  predicate Visible(db: map<string, Item>, id: string) {
    id in db && !db[id].hidden
  }

  function VisibleOf(db: map<string, Item>, ids: set<string>): set<string> {
    set id | id in ids && Visible(db, id)
  }

  lemma AppendCandidate(r: seq<Candidate>, c: Candidate)
    requires DistinctIds(r) && c.id !in Ids(r)
    ensures DistinctIds(r + [c]) && Ids(r + [c]) == Ids(r) + {c.id}
  {
    assert forall j :: 0 <= j < |r| ==> r[j] in r && r[j].id in Ids(r);
    assert forall x :: x in r + [c] <==> x in r || x == c;
  }

  /** Append the items that are not candidates yet. */
  method AppendNew(candidates: seq<Candidate>, candidateSet: set<string>, items: seq<Item>) returns (r: seq<Candidate>)
    requires DistinctIds(candidates) && candidateSet == Ids(candidates)
    ensures candidates <= r && DistinctIds(r) && Ids(r) == candidateSet + (set item | item in items :: item.id)
    ensures forall k :: |candidates| <= k < |r| ==> r[k].score == 0.0
  {
    r := candidates;
    var known := candidateSet;
    for k := 0 to |items|
      invariant candidates <= r && DistinctIds(r) && known == Ids(r)
      invariant Ids(r) == candidateSet + set item | item in items[..k] :: item.id
      invariant forall j :: |candidates| <= j < |r| ==> r[j].score == 0.0
    {
      assert items[..k + 1] == items[..k] + [items[k]];
      if items[k].id in known {
        continue;
      }
      var c := Candidate(items[k].id, 0.0);
      AppendCandidate(r, c);
      r := r + [c];
      known := known + {items[k].id};
    }
    assert items[..|items|] == items;
  }

  /** `order` lists the distinct items in the arbitrary order of the set. */
  method AddReplacementCandidates(candidates: seq<Candidate>, candidateSet: set<string>, feedbacks: seq<Feedback>,
                                  cache: ItemCache,
                                  order: seq<string>, response: Option<seq<Item>>)
    returns (ok: bool, r: seq<Candidate>, positive: set<string>, negative: set<string>)
    requires DistinctIds(candidates) && candidateSet == Ids(candidates) && cache.Valid()
    requires (set id | id in order) == KnownItems(feedbacks)
    requires response.Some? ==> Answers(response.value, cache.db, Missing(cache.data, order))
    modifies cache
    ensures cache.Valid()
    ensures ok <==> response.Some? || KnownItems(feedbacks) == {}
    ensures ok ==> candidates <= r && DistinctIds(r) && forall k :: |candidates| <= k < |r| ==> r[k].score == 0.0
    ensures ok ==> Ids(r) == Ids(candidates) + VisibleOf(cache.db, KnownItems(feedbacks))
    ensures ok ==> positive == VisibleOf(cache.db, PositiveItems(feedbacks))
    ensures ok ==> negative == VisibleOf(cache.db, KnownItems(feedbacks) - PositiveItems(feedbacks))
  {
    var positiveItems, distinctItems := CollectItems(feedbacks);
    if |distinctItems| == 0 {
      assert positiveItems <= distinctItems;
      return true, candidates, positiveItems, {};
    }
    var items := cache.GetSlice(order, response);
    if items.None? {
      return false, [], {}, {};
    }
    LookupFacts(cache.db, order);
    ExistingIds(cache.db, order);
    r := AppendNew(candidates, candidateSet, items.value);
    var existing := set item | item in items.value :: item.id;
    positive := positiveItems * existing;
    negative := (distinctItems - positiveItems) * existing;
    ok := true;
  }

  lemma ExistingIds(db: map<string, Item>, order: seq<string>)
    requires Keyed(db)
    ensures (set item | item in Lookup(db, order) :: item.id) == VisibleOf(db, set id | id in order)
  {
    LookupFacts(db, order);
    forall id | id in order && Visible(db, id)
      ensures id in set item | item in Lookup(db, order) :: item.id
    {
      assert db[id] in Lookup(db, order);
    }
  }

  /** Which items are put back, and how they are divided: an item that is in the
      database and not hidden comes back if and only if some feedback on it is positive
      or read, and counts as negative if and only if some is read and none positive. */
  lemma ReplacedItems(db: map<string, Item>, feedbacks: seq<Feedback>, id: string)
    ensures id in VisibleOf(db, KnownItems(feedbacks)) <==>
      id in db && !db[id].hidden && exists f :: f in feedbacks && f.item == id && (f.positive || f.read)
    ensures id in VisibleOf(db, PositiveItems(feedbacks)) <==>
      id in db && !db[id].hidden && exists f :: f in feedbacks && f.item == id && f.positive
    ensures id in VisibleOf(db, KnownItems(feedbacks) - PositiveItems(feedbacks)) <==>
      id in db && !db[id].hidden && (exists f :: f in feedbacks && f.item == id && f.read)
      && !exists f :: f in feedbacks && f.item == id && f.positive
  {
  }

  /** An item with negative feedback comes back if it was also read: replacement
      looks only at the positive and read verdicts. */
  lemma NegativeItemsCanReturn(item: string, db: map<string, Item>)
    requires Visible(db, item)
    ensures item in VisibleOf(db, KnownItems([Feedback(item, false, true, false), Feedback(item, false, false, true)]))
  {
    var read, disliked := Feedback(item, false, true, false), Feedback(item, false, false, true);
    assert read in [read, disliked];
  }

  // ------------------------------------------------------------------
  // Decay
  // ------------------------------------------------------------------

  datatype Decays = Decays(positive: real, read: real)

  function Decayed(c: Candidate, positive: set<string>, negative: set<string>, d: Decays): Candidate {
    if c.id in positive then c.(score := c.score * d.positive)
    else if c.id in negative then c.(score := c.score * d.read)
    else c
  }

  function DecayedAll(results: seq<Candidate>, positive: set<string>, negative: set<string>, d: Decays)
    : (r: seq<Candidate>)
    ensures |r| == |results|
    ensures forall k :: 0 <= k < |r| ==> r[k] == Decayed(results[k], positive, negative, d)
    ensures forall k :: 0 <= k < |r| ==>
      && r[k].id == results[k].id
      && (r[k].id in positive ==> r[k].score == results[k].score * d.positive)
      && (r[k].id in negative - positive ==> r[k].score == results[k].score * d.read)
      && (r[k].id !in positive + negative ==> r[k].score == results[k].score)
  {
    seq(|results|, k requires 0 <= k < |results| => Decayed(results[k], positive, negative, d))
  }

  predicate Descending(r: seq<Candidate>) {
    forall j, k :: 0 <= j < k < |r| ==> r[j].score >= r[k].score
  }

  ghost predicate IsSort(sort: seq<Candidate> -> seq<Candidate>) {
    forall s :: Descending(sort(s)) && multiset(sort(s)) == multiset(s)
  }

  /** Every replaced item is decayed exactly once, and the results are sorted again
      exactly if there is one. */
  method ApplyReplacementDecay(results: seq<Candidate>, positive: set<string>, negative: set<string>, d: Decays,
                               sort: seq<Candidate> -> seq<Candidate>) returns (r: seq<Candidate>)
    requires IsSort(sort)
    ensures multiset(r) == multiset(DecayedAll(results, positive, negative, d))
    ensures Ids(results) !! positive + negative ==> r == results
    ensures !(Ids(results) !! positive + negative) ==> Descending(r)
  {
    if positive == {} && negative == {} {
      assert DecayedAll(results, positive, negative, d) == results;
      return results;
    }
    var updated := new Candidate[|results|](i requires 0 <= i < |results| => results[i]);
    var changed := false;
    for i := 0 to updated.Length
      invariant forall k :: 0 <= k < i ==> updated[k] == Decayed(results[k], positive, negative, d)
      invariant forall k :: i <= k < |results| ==> updated[k] == results[k]
      invariant changed <==> exists k :: 0 <= k < i && results[k].id in positive + negative
    {
      if updated[i].id in positive {
        updated[i] := updated[i].(score := updated[i].score * d.positive);
        changed := true;
      } else if updated[i].id in negative {
        updated[i] := updated[i].(score := updated[i].score * d.read);
        changed := true;
      }
    }
    assert updated[..] == DecayedAll(results, positive, negative, d);
    UntouchedIds(results, positive + negative);
    if changed {
      r := sort(updated[..]);
    } else {
      assert updated[..] == results;
      r := updated[..];
    }
  }

  lemma UntouchedIds(results: seq<Candidate>, ids: set<string>)
    ensures Ids(results) !! ids <==> forall k :: 0 <= k < |results| ==> results[k].id !in ids
  {
    forall k | 0 <= k < |results|
      ensures results[k].id in Ids(results)
    {
      assert results[k] in results;
    }
  }
}
