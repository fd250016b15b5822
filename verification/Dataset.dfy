/** The in-memory dataset: feedback stored once per user and once, transposed, per
    item, and the two ways of splitting it into a train and a test set.

    Timestamps are integers. Random choices and the order chosen by an unstable
    sort are parameters, so each result holds for all of them. */
module Dataset {
  import opened Dictionary

  datatype Event = Event(item: nat, time: int)

  /** The feedback fields of a dataset. */
  datatype Feed = Feed(users: seq<seq<nat>>, items: seq<seq<nat>>, times: seq<seq<int>>, count: nat)

  function Times(s: seq<nat>, x: nat): nat {
    if s == [] then 0 else Times(s[..|s| - 1], x) + (if s[|s| - 1] == x then 1 else 0)
  }

  function Total(rows: seq<seq<nat>>): nat {
    if rows == [] then 0 else Total(rows[..|rows| - 1]) + |rows[|rows| - 1]|
  }

  /** Every entry refers to an existing row of the other side. */
  predicate InRange(rows: seq<seq<nat>>, n: nat) {
    forall u, k :: 0 <= u < |rows| && 0 <= k < |rows[u]| ==> rows[u][k] < n
  }

  /** A user occurs in an item's list as often as the item in the user's list. */
  predicate Transposed(f: Feed) {
    forall u: nat, i: nat :: u < |f.users| && i < |f.items| ==> Times(f.users[u], i) == Times(f.items[i], u)
  }

  predicate FeedOk(f: Feed) {
    && |f.times| == |f.users|
    && (forall u :: 0 <= u < |f.users| ==> |f.times[u]| == |f.users[u]|)
    && InRange(f.users, |f.items|) && InRange(f.items, |f.users|)
    && Transposed(f)
    && f.count == Total(f.users)
  }

  function Empty(numUsers: nat, numItems: nat): Feed {
    Feed(seq(numUsers, _ => []), seq(numItems, _ => []), seq(numUsers, _ => []), 0)
  }

  /** The four statements that record one feedback. */
  function Put(f: Feed, u: nat, e: Event): Feed
    requires u < |f.users| && u < |f.times| && e.item < |f.items|
  {
    Feed(f.users[u := f.users[u] + [e.item]], f.items[e.item := f.items[e.item] + [u]],
         f.times[u := f.times[u] + [e.time]], f.count + 1)
  }

  lemma TimesAppend(s: seq<nat>, y: nat, x: nat)
    ensures Times(s + [y], x) == Times(s, x) + (if x == y then 1 else 0)
  {
    assert (s + [y])[..|s|] == s;
  }

  lemma {:induction false} TotalUpdate(rows: seq<seq<nat>>, u: nat, x: nat)
    requires u < |rows|
    ensures Total(rows[u := rows[u] + [x]]) == Total(rows) + 1
    decreases |rows|
  {
    var rows' := rows[u := rows[u] + [x]];
    if u < |rows| - 1 {
      TotalUpdate(rows[..|rows| - 1], u, x);
      assert rows'[..|rows| - 1] == rows[..|rows| - 1][u := rows[u] + [x]];
    } else {
      assert rows'[..|rows| - 1] == rows[..|rows| - 1];
    }
  }

  lemma PutKeepsTransposed(f: Feed, u: nat, e: Event)
    requires Transposed(f) && u < |f.users| && u < |f.times| && e.item < |f.items|
    ensures Transposed(Put(f, u, e))
  {
    var f' := Put(f, u, e);
    forall v: nat, i: nat | v < |f'.users| && i < |f'.items|
      ensures Times(f'.users[v], i) == Times(f'.items[i], v)
    {
      TimesAppend(f.users[u], e.item, i);
      TimesAppend(f.items[e.item], u, v);
      assert Times(f.users[v], i) == Times(f.items[i], v);
    }
  }

  lemma AppendInRange(rows: seq<seq<nat>>, u: nat, x: nat, n: nat)
    requires InRange(rows, n) && u < |rows| && x < n
    ensures InRange(rows[u := rows[u] + [x]], n)
  {
  }

  lemma PutKeepsOk(f: Feed, u: nat, e: Event)
    requires FeedOk(f) && u < |f.users| && e.item < |f.items|
    ensures FeedOk(Put(f, u, e))
  {
    PutKeepsTransposed(f, u, e);
    AppendInRange(f.users, u, e.item, |f.items|);
    AppendInRange(f.items, e.item, u, |f.users|);
    TotalUpdate(f.users, u, e.item);
  }

  lemma {:induction false} TotalOfEmpty(rows: seq<seq<nat>>)
    requires forall u :: 0 <= u < |rows| ==> rows[u] == []
    ensures Total(rows) == 0
  {
    if rows != [] {
      TotalOfEmpty(rows[..|rows| - 1]);
    }
  }

  lemma EmptyOk(numUsers: nat, numItems: nat)
    ensures FeedOk(Empty(numUsers, numItems))
  {
    TotalOfEmpty(Empty(numUsers, numItems).users);
  }

  /** The events of a user, in order. */
  function Events(f: Feed, u: nat): (r: seq<Event>)
    requires u < |f.users| && u < |f.times| && |f.times[u]| == |f.users[u]|
    ensures |r| == |f.users[u]|
  {
    seq(|f.users[u]|, k requires 0 <= k < |f.users[u]| => Event(f.users[u][k], f.times[u][k]))
  }

  lemma PutEvents(f: Feed, u: nat, e: Event)
    requires FeedOk(f) && u < |f.users| && e.item < |f.items|
    ensures FeedOk(Put(f, u, e))
    ensures Events(Put(f, u, e), u) == Events(f, u) + [e]
    ensures forall v: nat :: v < |f.users| && v != u ==> Events(Put(f, u, e), v) == Events(f, v)
  {
    PutKeepsOk(f, u, e);
  }

  // ------------------------------------------------------------------
  // Leave-one-out split
  // ------------------------------------------------------------------

  /** The first `numUsers` users' lists, which is all a split looks at, refer to
      the first `numItems` items. */
  predicate Splittable(d: Feed, numUsers: nat, numItems: nat) {
    && numUsers <= |d.users| == |d.times|
    && (forall u :: 0 <= u < |d.users| ==> |d.times[u]| == |d.users[u]|)
    && InRange(d.users[..numUsers], numItems)
  }

  predicate ValidPicks(d: Feed, picks: seq<nat>, numUsers: nat) {
    |picks| == numUsers <= |d.users|
    && forall u :: 0 <= u < numUsers && d.users[u] != [] ==> picks[u] < |d.users[u]|
  }

  /** What SampleInt32 returns: distinct users. */
  predicate ValidSample(sample: seq<nat>, n: int, numUsers: nat) {
    && |sample| == n
    && (forall i :: 0 <= i < |sample| ==> sample[i] < numUsers)
    && (forall i, j :: 0 <= i < j < |sample| ==> sample[i] != sample[j])
  }

  function Without<T>(s: seq<T>, k: nat): seq<T>
    requires k < |s|
  {
    s[..k] + s[k + 1..]
  }

  function TestPart(es: seq<Event>, tested: bool, k: nat): seq<Event>
    requires es != [] ==> k < |es|
  {
    if tested && es != [] then [es[k]] else []
  }

  function TrainPart(es: seq<Event>, tested: bool, k: nat): seq<Event>
    requires es != [] ==> k < |es|
  {
    if tested && es != [] then Without(es, k) else es
  }

  /** SplitCF tests all users unless it is asked for fewer than there are. */
  predicate Tested(u: nat, numTestUsers: int, numUsers: nat, sample: seq<nat>) {
    numTestUsers >= numUsers || numTestUsers <= 0 || u in sample
  }

  /** Both parts are consistent datasets, and every user's events are divided as
      the choice says, in order. */
  ghost predicate IsSplit(d: Feed, numUsers: nat, numItems: nat, numTestUsers: int, sample: seq<nat>, picks: seq<nat>,
                          train: Feed, test: Feed)
    requires Splittable(d, numUsers, numItems) && ValidPicks(d, picks, numUsers)
  {
    && FeedOk(train) && FeedOk(test)
    && |train.users| == |test.users| == numUsers && |train.items| == |test.items| == numItems
    && forall u: nat :: u < numUsers ==>
         && Events(train, u) == TrainPart(Events(d, u), Tested(u, numTestUsers, numUsers, sample), picks[u])
         && Events(test, u) == TestPart(Events(d, u), Tested(u, numTestUsers, numUsers, sample), picks[u])
  }

  lemma WithoutConserves<T>(s: seq<T>, k: nat)
    requires k < |s|
    ensures multiset(Without(s, k)) + multiset{s[k]} == multiset(s)
  {
    assert s == s[..k] + [s[k]] + s[k + 1..];
  }

  /** A split loses and invents nothing: every user's events are those of the two
      parts together, tested users with feedback give exactly one event to the
      test set and all others none, and the counters add up. */
  lemma SplitConserves(d: Feed, numUsers: nat, numItems: nat, numTestUsers: int, sample: seq<nat>, picks: seq<nat>,
                       train: Feed, test: Feed)
    requires Splittable(d, numUsers, numItems) && ValidPicks(d, picks, numUsers)
    requires IsSplit(d, numUsers, numItems, numTestUsers, sample, picks, train, test)
    ensures forall u: nat :: u < numUsers ==>
      multiset(Events(train, u)) + multiset(Events(test, u)) == multiset(Events(d, u))
    ensures forall u: nat :: u < numUsers ==>
      var es, k := Events(d, u), picks[u];
      if es != [] && (numTestUsers <= 0 || numTestUsers >= numUsers || u in sample)
      then Events(test, u) == [es[k]] && Events(train, u) == es[..k] + es[k + 1..]
      else Events(test, u) == [] && Events(train, u) == es
    ensures train.count + test.count == Total(d.users[..numUsers])
  {
    forall u: nat | u < numUsers
      ensures multiset(Events(train, u)) + multiset(Events(test, u)) == multiset(Events(d, u))
    {
      if Tested(u, numTestUsers, numUsers, sample) && Events(d, u) != [] {
        WithoutConserves(Events(d, u), picks[u]);
      }
    }
    forall u | 0 <= u < numUsers
      ensures |train.users[u]| + |test.users[u]| == |d.users[u]|
    {
      assert |Events(train, u)| + |Events(test, u)| == |Events(d, u)|;
    }
    TotalsAdd(train.users, test.users, d.users[..numUsers]);
  }

  lemma {:induction false} TotalsAdd(a: seq<seq<nat>>, b: seq<seq<nat>>, c: seq<seq<nat>>)
    requires |a| == |b| == |c| && forall u :: 0 <= u < |c| ==> |a[u]| + |b[u]| == |c[u]|
    ensures Total(a) + Total(b) == Total(c)
  {
    if c != [] {
      TotalsAdd(a[..|a| - 1], b[..|b| - 1], c[..|c| - 1]);
    }
  }

  /** The item lists of both parts are the transpose of their user lists. */
  lemma SplitTransposed(d: Feed, numUsers: nat, numItems: nat, numTestUsers: int, sample: seq<nat>, picks: seq<nat>,
                        train: Feed, test: Feed,
                        u: nat, i: nat)
    requires Splittable(d, numUsers, numItems) && ValidPicks(d, picks, numUsers)
    requires IsSplit(d, numUsers, numItems, numTestUsers, sample, picks, train, test) && u < numUsers && i < numItems
    ensures Times(train.items[i], u) + Times(test.items[i], u) == Times(d.users[u], i)
  {
    assert Times(train.users[u], i) == Times(train.items[i], u);
    assert Times(test.users[u], i) == Times(test.items[i], u);
    ItemTimes(train, u, i);
    ItemTimes(test, u, i);
    ItemTimes(d, u, i);
    var es, k := Events(d, u), picks[u];
    if Tested(u, numTestUsers, numUsers, sample) && es != [] {
      OfItemConcat(es[..k] + [es[k]], es[k + 1..], i);
      OfItemConcat(es[..k], [es[k]], i);
      OfItemConcat(es[..k], es[k + 1..], i);
      assert es == es[..k] + [es[k]] + es[k + 1..];
    }
  }

  function OfItem(es: seq<Event>, i: nat): nat {
    if es == [] then 0 else OfItem(es[..|es| - 1], i) + (if es[|es| - 1].item == i then 1 else 0)
  }

  lemma {:induction false} OfItemConcat(a: seq<Event>, b: seq<Event>, i: nat)
    ensures OfItem(a + b, i) == OfItem(a, i) + OfItem(b, i)
  {
    if b == [] {
      assert a + b == a;
    } else {
      assert (a + b)[..|a + b| - 1] == a + b[..|b| - 1];
      OfItemConcat(a, b[..|b| - 1], i);
    }
  }

  lemma {:induction false} ItemTimesOf(s: seq<nat>, es: seq<Event>, i: nat)
    requires |s| == |es| && forall k :: 0 <= k < |s| ==> es[k].item == s[k]
    ensures Times(s, i) == OfItem(es, i)
  {
    if s != [] {
      ItemTimesOf(s[..|s| - 1], es[..|es| - 1], i);
    }
  }

  lemma ItemTimes(f: Feed, u: nat, i: nat)
    requires u < |f.users| && u < |f.times| && |f.times[u]| == |f.users[u]|
    ensures Times(f.users[u], i) == OfItem(Events(f, u), i)
  {
    ItemTimesOf(f.users[u], Events(f, u), i);
  }

  // ------------------------------------------------------------------
  // Split by recency
  // ------------------------------------------------------------------

  /** `order` is a permutation of the positions of `times` that a sort from the
      latest to the earliest may produce. */
  predicate SortedLatestFirst(times: seq<int>, order: seq<nat>) {
    && |order| == |times|
    && (forall i :: 0 <= i < |order| ==> order[i] < |times|)
    && (forall i, j :: 0 <= i < j < |order| ==> order[i] != order[j] && times[order[i]] >= times[order[j]])
  }

  predicate ValidOrders(d: Feed, orders: seq<seq<nat>>, numUsers: nat) {
    |orders| == numUsers <= |d.times| && forall u :: 0 <= u < numUsers ==> SortedLatestFirst(d.times[u], orders[u])
  }

  /** The events at the positions `order[from..to]`. */
  function Pick(es: seq<Event>, order: seq<nat>, from: nat, to: nat): (r: seq<Event>)
    requires from <= to <= |order| && forall i :: 0 <= i < |order| ==> order[i] < |es|
    ensures |r| == to - from
  {
    seq(to - from, i requires 0 <= i < to - from => es[order[from + i]])
  }

  /** How many events of a user with `n` events SplitLatest keeps. */
  function KeptCount(n: nat, shots: int): nat {
    if n == 0 then 0 else if shots < 0 then 1 else if n <= shots + 1 then n else shots + 1
  }

  /** How SplitLatest divides the events `es` of one user. */
  predicate DividedByTime(es: seq<Event>, order: seq<nat>, shots: int, train: seq<Event>, test: seq<Event>)
    requires |order| == |es| && forall i :: 0 <= i < |order| ==> order[i] < |es|
  {
    && test == (if es == [] then [] else Pick(es, order, 0, 1))
    && train == (if es == [] then [] else Pick(es, order, 1, KeptCount(|es|, shots)))
  }

  ghost predicate IsLatestSplit(d: Feed, numUsers: nat, numItems: nat, shots: int, orders: seq<seq<nat>>, train: Feed,
                                test: Feed)
    requires Splittable(d, numUsers, numItems) && ValidOrders(d, orders, numUsers)
  {
    && FeedOk(train) && FeedOk(test)
    && |train.users| == |test.users| == numUsers && |train.items| == |test.items| == numItems
    && forall u: nat :: u < numUsers ==>
         SortedLatestFirst(d.times[u], orders[u])
           && DividedByTime(Events(d, u), orders[u], shots, Events(train, u), Events(test, u))
  }

  /** The test set of a user with feedback is one event of the latest time, the
      train set the most recent others, at most `shots` of them; what neither set
      has is no more recent than what they have. */
  lemma LatestSplitKeepsMostRecent(d: Feed, numUsers: nat, numItems: nat, shots: int, orders: seq<seq<nat>>,
                                   train: Feed, test: Feed, u: nat)
    requires Splittable(d, numUsers, numItems) && ValidOrders(d, orders, numUsers) && u < numUsers
    requires IsLatestSplit(d, numUsers, numItems, shots, orders, train, test) && d.users[u] != []
    ensures |Events(test, u)| == 1
    ensures forall k :: 0 <= k < |d.times[u]| ==> d.times[u][k] <= Events(test, u)[0].time
    ensures |Events(train, u)|
      == (if shots <= 0 then 0 else if |d.users[u]| - 1 <= shots then |d.users[u]| - 1 else shots)
    ensures exists rest: multiset<Event> ::
      && multiset(Events(d, u)) == multiset(Events(test, u)) + multiset(Events(train, u)) + rest
      && forall x, y :: y in rest && (x in Events(test, u) || x in Events(train, u)) ==> x.time >= y.time
  {
    EveryPositionListed(d.times[u], orders[u]);
    var rest := RestOf(Events(d, u), d.times[u], orders[u], KeptCount(|d.users[u]|, shots));
  }

  /** What is left of the events of a user after the first `kept` ones by time. */
  lemma RestOf(es: seq<Event>, times: seq<int>, order: seq<nat>, kept: nat) returns (rest: multiset<Event>)
    requires |times| == |es| && SortedLatestFirst(times, order) && 1 <= kept <= |es|
    requires forall k :: 0 <= k < |es| ==> es[k].time == times[k]
    ensures multiset(es) == multiset(Pick(es, order, 0, 1)) + multiset(Pick(es, order, 1, kept)) + rest
    ensures forall x, y :: y in rest && (x in Pick(es, order, 0, 1) || x in Pick(es, order, 1, kept)) ==>
      x.time >= y.time
  {
    var others := Pick(es, order, kept, |order|);
    rest := multiset(others);
    PickAll(es, order);
    assert Pick(es, order, 0, |order|) == Pick(es, order, 0, 1) + Pick(es, order, 1, kept) + others;
    forall x, y | y in rest && (x in Pick(es, order, 0, 1) || x in Pick(es, order, 1, kept))
      ensures x.time >= y.time
    {
      var j :| 0 <= j < |others| && others[j] == y;
      assert times[order[kept + j]] == y.time;
    }
  }

  lemma EveryPositionListed(times: seq<int>, order: seq<nat>)
    requires SortedLatestFirst(times, order) && times != []
    ensures forall k :: 0 <= k < |times| ==> times[k] <= times[order[0]]
  {
    forall k: nat | k < |times|
      ensures times[k] <= times[order[0]]
    {
      assert DistinctBelow(order, |times|);
      var i := PositionInOrder(order, |times|, k);
      if i > 0 {
        assert times[order[0]] >= times[order[i]];
      }
    }
  }

  predicate DistinctBelow(order: seq<nat>, n: nat) {
    && (forall i :: 0 <= i < |order| ==> order[i] < n)
    && (forall i, j :: 0 <= i < j < |order| ==> order[i] != order[j])
  }

  lemma RemoveKeepsDistinct(order: seq<nat>, n: nat, j: nat)
    requires DistinctBelow(order, n + 1) && j < |order| && order[j] == n
    ensures DistinctBelow(Without(order, j), n)
  {
    var rest := Without(order, j);
    assert forall i :: 0 <= i < |rest| ==> rest[i] == order[if i < j then i else i + 1];
  }

  lemma {:induction false} AtMost(order: seq<nat>, n: nat)
    requires DistinctBelow(order, n)
    ensures |order| <= n
    decreases n
  {
    if order != [] {
      assert order[0] < n;
      if j :| 0 <= j < |order| && order[j] == n - 1 {
        RemoveKeepsDistinct(order, n - 1, j);
        AtMost(Without(order, j), n - 1);
      } else {
        AtMost(order, n - 1);
      }
    }
  }

  /** A list of `n` distinct numbers below `n` contains every number below `n`. */
  lemma PositionInOrder(order: seq<nat>, n: nat, k: nat) returns (i: nat)
    requires DistinctBelow(order, n) && |order| == n && k < n
    ensures i < |order| && order[i] == k
  {
    if j :| 0 <= j < |order| && order[j] == k {
      i := j;
    } else {
      AtMost(order + [k], n);
    }
  }

  /** Picking every position once gives the same events in another order. */
  lemma {:induction false} PickAll(es: seq<Event>, order: seq<nat>)
    requires DistinctBelow(order, |es|) && |order| == |es|
    ensures multiset(Pick(es, order, 0, |order|)) == multiset(es)
    decreases |es|
  {
    if es != [] {
      var m := |es| - 1;
      var j := PositionInOrder(order, |es|, m);
      var rest := Without(order, j);
      RemoveKeepsDistinct(order, m, j);
      PickAll(es[..m], rest);
      var all := Pick(es, order, 0, |order|);
      assert Without(all, j) == Pick(es[..m], rest, 0, |rest|);
      WithoutConserves(all, j);
      assert es == es[..m] + [es[m]];
    }
  }

  // ------------------------------------------------------------------
  // The dataset
  // ------------------------------------------------------------------

  class Dataset {
    var users: seq<Name>
    var items: seq<Name>
    var userFeedback: seq<seq<nat>>
    var itemFeedback: seq<seq<nat>>
    var timestamps: seq<seq<int>>
    var numFeedback: nat
    const userDict: FreqDict
    const itemDict: FreqDict

    ghost function Feedback(): Feed
      reads this
    {
      Feed(userFeedback, itemFeedback, timestamps, numFeedback)
    }

    /** The lists cover all users and items and mirror each other. */
    ghost predicate Valid()
      reads this, userDict, itemDict
    {
      Mirroring() && Counted()
    }

    ghost predicate Mirroring()
      reads this, userDict, itemDict
    {
      && userDict != itemDict && userDict.Valid() && itemDict.Valid()
      && |users| <= |userFeedback| && |items| <= |itemFeedback|
      && FeedOk(Feedback())
    }

    /** The frequency of a user or item is the number of its feedback. */
    ghost predicate Counted()
      reads this, userDict, itemDict
    {
      FrequenciesMatch(userDict.cnt, userFeedback) && FrequenciesMatch(itemDict.cnt, itemFeedback)
    }

    /** The frequencies are one feedback ahead of the lists. */
    ghost predicate CountedWith(u: nat, i: nat)
      requires u < |userFeedback| && i < |itemFeedback|
      reads this, userDict, itemDict
    {
      && FrequenciesMatch(userDict.cnt, userFeedback[u := userFeedback[u] + [i]])
      && FrequenciesMatch(itemDict.cnt, itemFeedback[i := itemFeedback[i] + [u]])
    }

    /** NewDataset: the estimates only set the initial number of empty lists. */
    constructor (userCount: nat, itemCount: nat)
      ensures Valid() && fresh(userDict) && fresh(itemDict)
      ensures users == [] && items == [] && Feedback() == Empty(userCount, itemCount)
    {
      users, items := [], [];
      userFeedback, itemFeedback := seq(userCount, _ => []), seq(itemCount, _ => []);
      timestamps := seq(userCount, _ => []);
      numFeedback := 0;
      userDict := new FreqDict();
      itemDict := new FreqDict();
      new;
      assert Feedback() == Empty(userCount, itemCount);
      EmptyOk(userCount, itemCount);
    }

    /** The empty parts a split starts from; the dictionaries are shared. */
    constructor Part(users: seq<Name>, items: seq<Name>, userDict: FreqDict, itemDict: FreqDict)
      ensures this.users == users && this.items == items && this.userDict == userDict && this.itemDict == itemDict
      ensures Feedback() == Empty(|users|, |items|)
    {
      this.users, this.items := users, items;
      this.userDict, this.itemDict := userDict, itemDict;
      userFeedback, itemFeedback := seq(|users|, _ => []), seq(|items|, _ => []);
      timestamps := seq(|users|, _ => []);
      numFeedback := 0;
      new;
      assert Feedback() == Empty(|users|, |items|);
    }

    method AddUser(userId: Name)
      requires Valid() && |userDict.names| + 1 < MAX_NAMES
      modifies this, userDict
      ensures Valid() && users == old(users) + [userId] && items == old(items)
      ensures userDict.names == Added(old(userDict.names), userId)
    {
      users := users + [userId];
      RegisterName(userDict, userId, userFeedback);
      if |userFeedback| < |users| {
        AppendUserLists();
      }
    }

    method AppendUserLists()
      requires FeedOk(Feedback())
      modifies this`userFeedback, this`timestamps
      ensures FeedOk(Feedback()) && |userFeedback| == |old(userFeedback)| + 1
      ensures forall cnt :: FrequenciesMatch(cnt, old(userFeedback)) ==> FrequenciesMatch(cnt, userFeedback)
    {
      GrowUsers(Feedback());
      userFeedback := userFeedback + [[]];
      timestamps := timestamps + [[]];
    }

    method AddItem(itemId: Name)
      requires Valid() && |itemDict.names| + 1 < MAX_NAMES
      modifies this, itemDict
      ensures Valid() && items == old(items) + [itemId] && users == old(users)
      ensures itemDict.names == Added(old(itemDict.names), itemId)
    {
      items := items + [itemId];
      RegisterName(itemDict, itemId, itemFeedback);
      if |itemFeedback| < |items| {
        GrowItems(Feedback());
        GrowMatches(itemDict.cnt, itemFeedback);
        itemFeedback := itemFeedback + [[]];
      }
    }

    /** AddFeedback needs lists for the ids it uses, `u` and `i`; otherwise it panics. */
    method AddFeedback(userId: Name, itemId: Name, timestamp: int) returns (ghost u: nat, ghost i: nat)
      requires Valid() && |userDict.names| + 1 < MAX_NAMES && |itemDict.names| + 1 < MAX_NAMES
      requires Position(Added(userDict.names, userId), userId) < |userFeedback|
      requires Position(Added(itemDict.names, itemId), itemId) < |itemFeedback|
      modifies this`userFeedback, this`itemFeedback, this`timestamps, this`numFeedback, userDict, itemDict
      ensures Valid()
      ensures userDict.names == Added(old(userDict.names), userId)
      ensures itemDict.names == Added(old(itemDict.names), itemId)
      ensures u == Position(userDict.names, userId) && u < |old(userFeedback)|
      ensures i == Position(itemDict.names, itemId) && i < |old(itemFeedback)|
      ensures Feedback() == Put(old(Feedback()), u, Event(i, timestamp))
    {
      var userIndex, itemIndex := CountPair(userId, itemId);
      u, i := userIndex, itemIndex;
      RecordNew(userIndex, itemIndex, timestamp);
    }

    /** The ids of both names, each counted once more. */
    method CountPair(userId: Name, itemId: Name) returns (u: nat, i: nat)
      requires userDict != itemDict && userDict.Valid() && itemDict.Valid() && Counted()
      requires |userDict.names| + 1 < MAX_NAMES && |itemDict.names| + 1 < MAX_NAMES
      requires Position(Added(userDict.names, userId), userId) < |userFeedback|
      requires Position(Added(itemDict.names, itemId), itemId) < |itemFeedback|
      modifies userDict, itemDict
      ensures userDict.Valid() && userDict.names == Added(old(userDict.names), userId)
      ensures itemDict.Valid() && itemDict.names == Added(old(itemDict.names), itemId)
      ensures u == Position(userDict.names, userId) && u < |userFeedback|
      ensures i == Position(itemDict.names, itemId) && i < |itemFeedback|
      ensures CountedWith(u, i)
    {
      ghost var later := Position(Added(itemDict.names, itemId), itemId);
      u := CountName(userDict, userId, userFeedback, later);
      i := CountName(itemDict, itemId, itemFeedback, u);
    }

    method RecordNew(u: nat, i: nat, t: int)
      requires Mirroring() && u < |userFeedback| && i < |itemFeedback| && CountedWith(u, i)
      modifies this`userFeedback, this`itemFeedback, this`timestamps, this`numFeedback
      ensures Valid() && Feedback() == Put(old(Feedback()), u, Event(i, t))
    {
      PutKeepsOk(Feedback(), u, Event(i, t));
      Record(u, i, t);
    }

    /** The body of the loops of SplitCF over the tested users. */
    method SplitUser(u: nat, k: nat, train: Dataset, test: Dataset)
      requires train != this && test != this && train != test
      requires Splittable(Feedback(), |users|, |items|) && u < |users|
        && (userFeedback[u] != [] ==> k < |userFeedback[u]|)
      requires FeedOk(train.Feedback()) && |train.userFeedback| == |users| && |train.itemFeedback| == |items|
      requires FeedOk(test.Feedback()) && |test.userFeedback| == |users| && |test.itemFeedback| == |items|
      requires Events(train.Feedback(), u) == [] && Events(test.Feedback(), u) == []
      modifies train`userFeedback, train`itemFeedback, train`timestamps, train`numFeedback
      modifies test`userFeedback, test`itemFeedback, test`timestamps, test`numFeedback
      ensures Extended(old(train.Feedback()), train.Feedback(), u, TrainPart(Events(Feedback(), u), true, k))
      ensures Extended(old(test.Feedback()), test.Feedback(), u, TestPart(Events(Feedback(), u), true, k))
    {
      if |userFeedback[u]| > 0 {
        var item := userFeedback[u][k];
        assert userFeedback[..|users|][u][k] == item;
        PutEvents(test.Feedback(), u, Event(item, timestamps[u][k]));
        test.Record(u, item, timestamps[u][k]);
        CopyEvents(this, u, k, train);
      }
    }

    ghost predicate SameOwners(part: Dataset)
      reads this, part
    {
      part.users == users && part.items == items
    }

    /** What SplitCF needs of the dataset and of the random positions. */
    ghost predicate CanSplit(picks: seq<nat>)
      reads this
    {
      Splittable(Feedback(), |users|, |items|) && ValidPicks(Feedback(), picks, |users|)
    }

    /** What the loops of a split keep about the two parts they fill. */
    ghost predicate Splitting(numTestUsers: int, sample: seq<nat>, picks: seq<nat>, done: set<nat>, train: Dataset,
                              test: Dataset)
      requires CanSplit(picks)
      reads this, train, test
    {
      && train != this && test != this && train != test
      && SameOwners(train) && SameOwners(test)
      && SplitSoFar(Feedback(), |users|, |items|, numTestUsers, sample, picks, done, train.Feedback(), test.Feedback())
    }

    method SplitTested(numTestUsers: int, sample: seq<nat>, picks: seq<nat>, u: nat, train: Dataset, test: Dataset,
                       ghost done: set<nat>)
      requires CanSplit(picks) && Splitting(numTestUsers, sample, picks, done, train, test)
      requires u < |users| && u !in done && Tested(u, numTestUsers, |users|, sample)
      modifies train`userFeedback, train`itemFeedback, train`timestamps, train`numFeedback
      modifies test`userFeedback, test`itemFeedback, test`timestamps, test`numFeedback
      ensures CanSplit(picks) && Splitting(numTestUsers, sample, picks, done + {u}, train, test)
    {
      ghost var d, tr, te := Feedback(), train.Feedback(), test.Feedback();
      SplitUser(u, picks[u], train, test);
      SplitStep(d, |users|, |items|, numTestUsers, sample, picks, done, tr, te, train.Feedback(), test.Feedback(), u);
    }

    method KeepUntested(numTestUsers: int, sample: seq<nat>, picks: seq<nat>, u: nat, train: Dataset, test: Dataset,
                        ghost done: set<nat>)
      requires CanSplit(picks) && Splitting(numTestUsers, sample, picks, done, train, test)
      requires u < |users| && u !in done && !Tested(u, numTestUsers, |users|, sample)
      modifies train`userFeedback, train`itemFeedback, train`timestamps, train`numFeedback
      ensures CanSplit(picks) && Splitting(numTestUsers, sample, picks, done + {u}, train, test)
    {
      ghost var d, tr, te := Feedback(), train.Feedback(), test.Feedback();
      CopyEvents(this, u, -1, train);
      SplitStep(d, |users|, |items|, numTestUsers, sample, picks, done, tr, te, train.Feedback(), te, u);
    }

    /** SplitCF when all users are tested. */
    method SplitAll(numTestUsers: int, sample: seq<nat>, picks: seq<nat>, train: Dataset, test: Dataset)
      requires CanSplit(picks) && Splitting(numTestUsers, sample, picks, Below(0), train, test)
      requires numTestUsers >= |users| || numTestUsers <= 0
      modifies train`userFeedback, train`itemFeedback, train`timestamps, train`numFeedback
      modifies test`userFeedback, test`itemFeedback, test`timestamps, test`numFeedback
      ensures CanSplit(picks) && Splitting(numTestUsers, sample, picks, Below(|users|), train, test)
    {
      var numUsers := |users|;
      for u := 0 to numUsers
        invariant numUsers == |users|
        invariant CanSplit(picks)
        invariant Splitting(numTestUsers, sample, picks, Below(u), train, test)
      {
        SplitNext(numTestUsers, sample, picks, u, train, test);
      }
    }

    method SplitNext(numTestUsers: int, sample: seq<nat>, picks: seq<nat>, u: nat, train: Dataset, test: Dataset)
      requires CanSplit(picks) && Splitting(numTestUsers, sample, picks, Below(u), train, test)
      requires u < |users| && (numTestUsers >= |users| || numTestUsers <= 0)
      modifies train`userFeedback, train`itemFeedback, train`timestamps, train`numFeedback
      modifies test`userFeedback, test`itemFeedback, test`timestamps, test`numFeedback
      ensures CanSplit(picks) && Splitting(numTestUsers, sample, picks, Below(u + 1), train, test)
    {
      assert Below(u) + {u} == Below(u + 1);
      SplitTested(numTestUsers, sample, picks, u, train, test, Below(u));
    }

    /** SplitCF's loop over a sample of the users. */
    method SplitSample(numTestUsers: int, sample: seq<nat>, picks: seq<nat>, train: Dataset, test: Dataset)
      requires CanSplit(picks) && Splitting(numTestUsers, sample, picks, Below(0), train, test)
      requires 0 < numTestUsers < |users| && ValidSample(sample, numTestUsers, |users|)
      modifies train`userFeedback, train`itemFeedback, train`timestamps, train`numFeedback
      modifies test`userFeedback, test`itemFeedback, test`timestamps, test`numFeedback
      ensures CanSplit(picks) && Splitting(numTestUsers, sample, picks, Sampled(sample), train, test)
    {
      assert Sampled(sample[..0]) == Below(0);
      for j := 0 to |sample|
        invariant CanSplit(picks)
        invariant Splitting(numTestUsers, sample, picks, Sampled(sample[..j]), train, test)
      {
        SplitSampled(numTestUsers, sample, picks, j, train, test);
      }
      assert sample[..|sample|] == sample;
    }

    method SplitSampled(numTestUsers: int, sample: seq<nat>, picks: seq<nat>, j: nat, train: Dataset, test: Dataset)
      requires CanSplit(picks) && j < |sample|
        && Splitting(numTestUsers, sample, picks, Sampled(sample[..j]), train, test)
      requires 0 < numTestUsers < |users| && ValidSample(sample, numTestUsers, |users|)
      modifies train`userFeedback, train`itemFeedback, train`timestamps, train`numFeedback
      modifies test`userFeedback, test`itemFeedback, test`timestamps, test`numFeedback
      ensures CanSplit(picks) && Splitting(numTestUsers, sample, picks, Sampled(sample[..j + 1]), train, test)
    {
      SampledNext(sample, j);
      SplitTested(numTestUsers, sample, picks, sample[j], train, test, Sampled(sample[..j]));
    }

    /** SplitCF's loop over the users outside the sample. */
    method KeepOthers(numTestUsers: int, sample: seq<nat>, picks: seq<nat>, testUserSet: set<nat>, train: Dataset,
                      test: Dataset)
      requires CanSplit(picks) && Splitting(numTestUsers, sample, picks, SampledOrBelow(sample, 0), train, test)
      requires 0 < numTestUsers < |users| && testUserSet == Sampled(sample)
      modifies train`userFeedback, train`itemFeedback, train`timestamps, train`numFeedback
      ensures CanSplit(picks) && Splitting(numTestUsers, sample, picks, SampledOrBelow(sample, |users|), train, test)
    {
      for u := 0 to |users|
        invariant CanSplit(picks)
        invariant Splitting(numTestUsers, sample, picks, SampledOrBelow(sample, u), train, test)
      {
        KeepOther(numTestUsers, sample, picks, u, testUserSet, train, test);
      }
    }

    method KeepOther(numTestUsers: int, sample: seq<nat>, picks: seq<nat>, u: nat, testUserSet: set<nat>,
                     train: Dataset,
                     test: Dataset)
      requires CanSplit(picks) && Splitting(numTestUsers, sample, picks, SampledOrBelow(sample, u), train, test)
      requires 0 < numTestUsers < |users| && u < |users| && testUserSet == Sampled(sample)
      modifies train`userFeedback, train`itemFeedback, train`timestamps, train`numFeedback
      ensures CanSplit(picks) && Splitting(numTestUsers, sample, picks, SampledOrBelow(sample, u + 1), train, test)
    {
      BelowNext(sample, u);
      if u !in testUserSet {
        KeepUntested(numTestUsers, sample, picks, u, train, test, SampledOrBelow(sample, u));
      }
    }

    /** The branches of SplitCF. */
    method DivideUsers(numTestUsers: int, sample: seq<nat>, picks: seq<nat>, train: Dataset, test: Dataset)
      returns (ghost done: set<nat>)
      requires CanSplit(picks) && Splitting(numTestUsers, sample, picks, Below(0), train, test)
      requires 0 < numTestUsers < |users| ==> ValidSample(sample, numTestUsers, |users|)
      modifies train`userFeedback, train`itemFeedback, train`timestamps, train`numFeedback
      modifies test`userFeedback, test`itemFeedback, test`timestamps, test`numFeedback
      ensures CanSplit(picks) && Splitting(numTestUsers, sample, picks, done, train, test)
      ensures forall u: nat :: u < |users| ==> u in done
    {
      if numTestUsers >= |users| || numTestUsers <= 0 {
        SplitAll(numTestUsers, sample, picks, train, test);
        done := Below(|users|);
      } else {
        SplitSample(numTestUsers, sample, picks, train, test);
        var testUserSet := Sampled(sample);
        assert SampledOrBelow(sample, 0) == testUserSet;
        KeepOthers(numTestUsers, sample, picks, testUserSet, train, test);
        done := SampledOrBelow(sample, |users|);
      }
    }

    method SplitCF(numTestUsers: int, sample: seq<nat>, picks: seq<nat>) returns (train: Dataset, test: Dataset)
      requires CanSplit(picks)
      requires 0 < numTestUsers < |users| ==> ValidSample(sample, numTestUsers, |users|)
      ensures fresh(train) && fresh(test) && SameOwners(train) && SameOwners(test)
      ensures train.userDict == test.userDict == userDict && train.itemDict == test.itemDict == itemDict
      ensures IsSplit(Feedback(), |users|, |items|, numTestUsers, sample, picks, train.Feedback(), test.Feedback())
    {
      train := new Dataset.Part(users, items, userDict, itemDict);
      test := new Dataset.Part(users, items, userDict, itemDict);
      EmptyOk(|users|, |items|);
      ghost var done := DivideUsers(numTestUsers, sample, picks, train, test);
      AllSplit(Feedback(), |users|, |items|, numTestUsers, sample, picks, done, train.Feedback(), test.Feedback());
    }

    /** The body of the loop of SplitLatest, for a user with feedback. */
    method SplitUserLatest(u: nat, order: seq<nat>, shots: int, train: Dataset, test: Dataset)
      requires train != this && test != this && train != test
      requires Splittable(Feedback(), |users|, |items|) && u < |users| && userFeedback[u] != []
      requires SortedLatestFirst(timestamps[u], order)
      requires FeedOk(train.Feedback()) && |train.userFeedback| == |users| && |train.itemFeedback| == |items|
      requires FeedOk(test.Feedback()) && |test.userFeedback| == |users| && |test.itemFeedback| == |items|
      requires Events(train.Feedback(), u) == [] && Events(test.Feedback(), u) == []
      modifies train`userFeedback, train`itemFeedback, train`timestamps, train`numFeedback
      modifies test`userFeedback, test`itemFeedback, test`timestamps, test`numFeedback
      ensures Extended(old(test.Feedback()), test.Feedback(), u, Pick(Events(Feedback(), u), order, 0, 1))
      ensures Extended(old(train.Feedback()), train.Feedback(), u,
                       Pick(Events(Feedback(), u), order, 1, KeptCount(|userFeedback[u]|, shots)))
    {
      ghost var es := Events(Feedback(), u);
      var item := userFeedback[u][order[0]];
      assert userFeedback[..|users|][u][order[0]] == item;
      PutEvents(test.Feedback(), u, Event(item, timestamps[u][order[0]]));
      test.Record(u, item, timestamps[u][order[0]]);
      assert Pick(es, order, 0, 1) == [es[order[0]]];
      var i := 1;
      while i < |userFeedback[u]| && i <= shots
        invariant 1 <= i <= |userFeedback[u]| && (i == 1 || i <= shots + 1)
        invariant Extended(old(test.Feedback()), test.Feedback(), u, Pick(es, order, 0, 1))
        invariant Extended(old(train.Feedback()), train.Feedback(), u, Pick(es, order, 1, i))
      {
        CopyPosition(u, order[i], train, old(train.Feedback()), Pick(es, order, 1, i));
        assert Pick(es, order, 1, i + 1) == Pick(es, order, 1, i) + [es[order[i]]];
        i := i + 1;
      }
    }

    /** Adds the event at one position to a part that has the events `so` of the user. */
    method CopyPosition(u: nat, k: nat, part: Dataset, ghost before: Feed, ghost so: seq<Event>)
      requires part != this && Splittable(Feedback(), |users|, |items|) && u < |users| && k < |userFeedback[u]|
      requires FeedOk(before) && |before.users| == |users| && |before.items| == |items|
        && Extended(before, part.Feedback(), u, so)
      modifies part`userFeedback, part`itemFeedback, part`timestamps, part`numFeedback
      ensures Extended(before, part.Feedback(), u, so + [Events(Feedback(), u)[k]])
    {
      var item := userFeedback[u][k];
      assert userFeedback[..|users|][u][k] == item;
      PutEvents(part.Feedback(), u, Event(item, timestamps[u][k]));
      part.Record(u, item, timestamps[u][k]);
    }

    /** The body of the loop of SplitLatest. */
    method SplitNextLatest(u: nat, shots: int, orders: seq<seq<nat>>, train: Dataset, test: Dataset)
      requires train != this && test != this && train != test && SameOwners(train) && SameOwners(test)
      requires Splittable(Feedback(), |users|, |items|) && ValidOrders(Feedback(), orders, |users|) && u < |users|
      requires LatestSoFar(Feedback(), |users|, |items|, shots, orders, u, train.Feedback(), test.Feedback())
      modifies train`userFeedback, train`itemFeedback, train`timestamps, train`numFeedback
      modifies test`userFeedback, test`itemFeedback, test`timestamps, test`numFeedback
      ensures LatestSoFar(Feedback(), |users|, |items|, shots, orders, u + 1, train.Feedback(), test.Feedback())
    {
      ghost var d, tr, te := Feedback(), train.Feedback(), test.Feedback();
      assert DividedSoFar(d, shots, orders, u, tr, te, u);
      if |userFeedback[u]| > 0 {
        SplitUserLatest(u, orders[u], shots, train, test);
        LatestStep(d, |users|, |items|, shots, orders, u, tr, te, train.Feedback(), test.Feedback());
      } else {
        LatestSkip(d, |users|, |items|, shots, orders, u, tr, te);
      }
    }

    method SplitAllLatest(shots: int, orders: seq<seq<nat>>, train: Dataset, test: Dataset)
      requires train != this && test != this && train != test && SameOwners(train) && SameOwners(test)
      requires Splittable(Feedback(), |users|, |items|) && ValidOrders(Feedback(), orders, |users|)
      requires LatestSoFar(Feedback(), |users|, |items|, shots, orders, 0, train.Feedback(), test.Feedback())
      modifies train`userFeedback, train`itemFeedback, train`timestamps, train`numFeedback
      modifies test`userFeedback, test`itemFeedback, test`timestamps, test`numFeedback
      ensures LatestSoFar(Feedback(), |users|, |items|, shots, orders, |users|, train.Feedback(), test.Feedback())
    {
      var numUsers := |users|;
      for u := 0 to numUsers
        invariant numUsers == |users|
        invariant LatestSoFar(Feedback(), |users|, |items|, shots, orders, u, train.Feedback(), test.Feedback())
      {
        SplitNextLatest(u, shots, orders, train, test);
      }
    }

    /** `orders` are the results of sorting every user's positions by time. */
    method SplitLatest(shots: int, orders: seq<seq<nat>>) returns (train: Dataset, test: Dataset)
      requires Splittable(Feedback(), |users|, |items|) && ValidOrders(Feedback(), orders, |users|)
      ensures fresh(train) && fresh(test) && SameOwners(train) && SameOwners(test)
      ensures train.userDict == test.userDict == userDict && train.itemDict == test.itemDict == itemDict
      ensures IsLatestSplit(Feedback(), |users|, |items|, shots, orders, train.Feedback(), test.Feedback())
    {
      train := new Dataset.Part(users, items, userDict, itemDict);
      test := new Dataset.Part(users, items, userDict, itemDict);
      EmptyOk(|users|, |items|);
      SplitAllLatest(shots, orders, train, test);
      LatestDone(Feedback(), |users|, |items|, shots, orders, train.Feedback(), test.Feedback());
    }

    /** The statements that both AddFeedback and the splits end with. */
    method Record(u: nat, i: nat, t: int)
      requires u < |userFeedback| && u < |timestamps| && i < |itemFeedback|
      modifies this`userFeedback, this`itemFeedback, this`timestamps, this`numFeedback
      ensures Feedback() == Put(old(Feedback()), u, Event(i, t))
    {
      itemFeedback := itemFeedback[i := itemFeedback[i] + [u]];
      userFeedback := userFeedback[u := userFeedback[u] + [i]];
      timestamps := timestamps[u := timestamps[u] + [t]];
      numFeedback := numFeedback + 1;
    }
  }

  /** The test users. */
  function Sampled(sample: seq<nat>): set<nat> {
    set u | u in sample
  }

  lemma SampledNext(sample: seq<nat>, j: nat)
    requires j < |sample| && forall i :: 0 <= i < j ==> sample[i] != sample[j]
    ensures Sampled(sample[..j + 1]) == Sampled(sample[..j]) + {sample[j]} && sample[j] !in Sampled(sample[..j])
  {
    assert sample[..j + 1] == sample[..j] + [sample[j]];
  }

  /** The users that are divided after the loop over the others has reached `u`. */
  ghost function SampledOrBelow(sample: seq<nat>, u: nat): set<nat> {
    Sampled(sample) + Below(u)
  }

  lemma BelowNext(sample: seq<nat>, u: nat)
    ensures SampledOrBelow(sample, u) + {u} == SampledOrBelow(sample, u + 1)
    ensures u in sample ==> SampledOrBelow(sample, u) == SampledOrBelow(sample, u + 1)
    ensures u !in sample ==> u !in SampledOrBelow(sample, u)
  {
    assert Below(u + 1) == Below(u) + {u};
  }

  ghost function Below(n: nat): (r: set<nat>)
    ensures forall v: nat :: v in r <==> v < n
  {
    if n == 0 then {} else Below(n - 1) + {n - 1}
  }

  /** The users in `done` are divided, the others still have nothing in either part. */
  ghost predicate SplitSoFar(d: Feed, numUsers: nat, numItems: nat, numTestUsers: int, sample: seq<nat>,
                             picks: seq<nat>,
                             done: set<nat>, train: Feed, test: Feed)
    requires Splittable(d, numUsers, numItems) && ValidPicks(d, picks, numUsers)
  {
    && FeedOk(train) && FeedOk(test)
    && |train.users| == |test.users| == numUsers && |train.items| == |test.items| == numItems
    && forall u: nat :: u < numUsers ==>
         var tested := Tested(u, numTestUsers, numUsers, sample);
         && Events(train, u) == (if u in done then TrainPart(Events(d, u), tested, picks[u]) else [])
         && Events(test, u) == (if u in done then TestPart(Events(d, u), tested, picks[u]) else [])
  }

  /** Dividing one more user. */
  lemma SplitStep(d: Feed, numUsers: nat, numItems: nat, numTestUsers: int, sample: seq<nat>, picks: seq<nat>,
                  done: set<nat>, train: Feed, test: Feed, train': Feed, test': Feed, u: nat)
    requires Splittable(d, numUsers, numItems) && ValidPicks(d, picks, numUsers)
    requires SplitSoFar(d, numUsers, numItems, numTestUsers, sample, picks, done, train, test) && u < numUsers
    requires var tested := Tested(u, numTestUsers, numUsers, sample);
      && Extended(train, train', u, TrainPart(Events(d, u), tested, picks[u]))
      && Extended(test, test', u, TestPart(Events(d, u), tested, picks[u]))
    ensures SplitSoFar(d, numUsers, numItems, numTestUsers, sample, picks, done + {u}, train', test')
  {
  }

  lemma AllSplit(d: Feed, numUsers: nat, numItems: nat, numTestUsers: int, sample: seq<nat>, picks: seq<nat>,
                 done: set<nat>, train: Feed, test: Feed)
    requires Splittable(d, numUsers, numItems) && ValidPicks(d, picks, numUsers)
    requires SplitSoFar(d, numUsers, numItems, numTestUsers, sample, picks, done, train, test)
    requires forall u: nat :: u < numUsers ==> u in done
    ensures IsSplit(d, numUsers, numItems, numTestUsers, sample, picks, train, test)
  {
  }

  ghost predicate LatestSoFar(d: Feed, numUsers: nat, numItems: nat, shots: int, orders: seq<seq<nat>>, done: nat,
                              train: Feed, test: Feed)
    requires Splittable(d, numUsers, numItems) && ValidOrders(d, orders, numUsers)
  {
    && FeedOk(train) && FeedOk(test)
    && |train.users| == |test.users| == numUsers && |train.items| == |test.items| == numItems
    && forall u: nat :: u < numUsers ==> DividedSoFar(d, shots, orders, done, train, test, u)
  }

  ghost predicate DividedSoFar(d: Feed, shots: int, orders: seq<seq<nat>>, done: nat, train: Feed, test: Feed, u: nat)
    requires FeedOk(train) && FeedOk(test) && u < |train.users| && u < |test.users| && u < |d.users| == |d.times|
    requires |d.times[u]| == |d.users[u]| && u < |orders| && SortedLatestFirst(d.times[u], orders[u])
  {
    if u < done then DividedByTime(Events(d, u), orders[u], shots, Events(train, u), Events(test, u))
    else Events(train, u) == [] && Events(test, u) == []
  }

  lemma LatestSkip(d: Feed, numUsers: nat, numItems: nat, shots: int, orders: seq<seq<nat>>, u: nat,
                   train: Feed, test: Feed)
    requires Splittable(d, numUsers, numItems) && ValidOrders(d, orders, numUsers)
    requires LatestSoFar(d, numUsers, numItems, shots, orders, u, train, test) && u < numUsers && d.users[u] == []
    ensures LatestSoFar(d, numUsers, numItems, shots, orders, u + 1, train, test)
  {
    var next := u + 1;
    forall v: nat | v < numUsers
      ensures DividedSoFar(d, shots, orders, next, train, test, v)
    {
      assert DividedSoFar(d, shots, orders, u, train, test, v);
      SkippedUser(d, shots, orders, u, train, test, v);
    }
  }

  lemma SkippedUser(d: Feed, shots: int, orders: seq<seq<nat>>, u: nat, train: Feed, test: Feed, v: nat)
    requires FeedOk(train) && FeedOk(test) && v < |train.users| && v < |test.users| && v < |d.users| == |d.times|
    requires |d.times[v]| == |d.users[v]| && v < |orders| && SortedLatestFirst(d.times[v], orders[v])
    requires DividedSoFar(d, shots, orders, u, train, test, v) && u < |d.users| && d.users[u] == []
    ensures DividedSoFar(d, shots, orders, u + 1, train, test, v)
  {
  }

  lemma LatestStep(d: Feed, numUsers: nat, numItems: nat, shots: int, orders: seq<seq<nat>>, u: nat,
                   train: Feed, test: Feed, train': Feed, test': Feed)
    requires Splittable(d, numUsers, numItems) && ValidOrders(d, orders, numUsers)
    requires LatestSoFar(d, numUsers, numItems, shots, orders, u, train, test) && u < numUsers && d.users[u] != []
    requires Extended(test, test', u, Pick(Events(d, u), orders[u], 0, 1))
    requires Extended(train, train', u, Pick(Events(d, u), orders[u], 1, KeptCount(|d.users[u]|, shots)))
    ensures LatestSoFar(d, numUsers, numItems, shots, orders, u + 1, train', test')
  {
    var next := u + 1;
    forall v: nat | v < numUsers
      ensures DividedSoFar(d, shots, orders, next, train', test', v)
    {
      assert DividedSoFar(d, shots, orders, u, train, test, v);
    }
  }

  lemma LatestDone(d: Feed, numUsers: nat, numItems: nat, shots: int, orders: seq<seq<nat>>, train: Feed, test: Feed)
    requires Splittable(d, numUsers, numItems) && ValidOrders(d, orders, numUsers)
    requires LatestSoFar(d, numUsers, numItems, shots, orders, numUsers, train, test)
    ensures IsLatestSplit(d, numUsers, numItems, shots, orders, train, test)
  {
    forall u: nat | u < numUsers
      ensures DividedByTime(Events(d, u), orders[u], shots, Events(train, u), Events(test, u))
    {
      assert DividedSoFar(d, shots, orders, numUsers, train, test, u);
    }
  }

  /** Only user `u` has changed, to have the events `es`. */
  ghost predicate Extended(f: Feed, f': Feed, u: nat, es: seq<Event>)
    requires FeedOk(f)
  {
    && FeedOk(f') && |f'.users| == |f.users| && |f'.items| == |f.items|
    && u < |f.users| && Events(f', u) == es
    && forall v: nat :: v < |f.users| && v != u ==> Events(f', v) == Events(f, v)
  }

  /** The first `i` events but for the one at `skip`. */
  function CopiedBefore(es: seq<Event>, i: nat, skip: int): seq<Event>
    requires i <= |es|
  {
    if skip < 0 || i <= skip then es[..i] else es[..skip] + es[skip + 1..i]
  }

  lemma CopiedNext(es: seq<Event>, i: nat, skip: int)
    requires i < |es|
    ensures CopiedBefore(es, i + 1, skip) == CopiedBefore(es, i, skip) + if i == skip then [] else [es[i]]
  {
  }

  lemma CopiedAll(es: seq<Event>, skip: int)
    requires -1 <= skip < |es| || skip < 0
    ensures CopiedBefore(es, |es|, skip) == if skip < 0 then es else Without(es, skip)
  {
  }

  /** Adds the events of user `u` of `d` to `part`, all but the one at `skip`. */
  method CopyEvents(d: Dataset, u: nat, skip: int, part: Dataset)
    requires part != d && Splittable(d.Feedback(), |d.users|, |d.items|) && u < |d.users|
    requires FeedOk(part.Feedback()) && |part.userFeedback| == |d.users| && |part.itemFeedback| == |d.items|
    requires -1 <= skip < |d.userFeedback[u]| && Events(part.Feedback(), u) == []
    modifies part`userFeedback, part`itemFeedback, part`timestamps, part`numFeedback
    ensures var es := Events(d.Feedback(), u);
      Extended(old(part.Feedback()), part.Feedback(), u, if skip < 0 then es else Without(es, skip))
  {
    ghost var es := Events(d.Feedback(), u);
    for i := 0 to |d.userFeedback[u]|
      invariant Extended(old(part.Feedback()), part.Feedback(), u, CopiedBefore(es, i, skip))
    {
      if i != skip {
        d.CopyPosition(u, i, part, old(part.Feedback()), CopiedBefore(es, i, skip));
      }
      CopiedNext(es, i, skip);
    }
    CopiedAll(es, skip);
  }

  /** FreqDict.Add, for a name whose list in `rows` is about to receive `x`. */
  method CountName(d: FreqDict, s: Name, ghost rows: seq<seq<nat>>, ghost x: nat) returns (y: nat)
    requires d.Valid() && |d.names| + 1 < MAX_NAMES && Position(Added(d.names, s), s) < |rows|
    modifies d
    ensures d.Valid() && d.names == Added(old(d.names), s)
    ensures y == Position(d.names, s) && y < |rows|
    ensures old(FrequenciesMatch(d.cnt, rows)) ==> FrequenciesMatch(d.cnt, rows[y := rows[y] + [x]])
  {
    ghost var before := d.Value();
    y := d.Add(s);
    if FrequenciesMatch(before.counts, rows) {
      CountMatches(before, s, rows, y, x);
    }
  }

  /** FreqDict.AddNoCount. */
  method RegisterName(d: FreqDict, s: Name, ghost rows: seq<seq<nat>>)
    requires d.Valid() && |d.names| + 1 < MAX_NAMES
    modifies d
    ensures d.Valid() && d.names == Added(old(d.names), s)
    ensures old(FrequenciesMatch(d.cnt, rows)) ==> FrequenciesMatch(d.cnt, rows)
  {
    ghost var before := d.Value();
    var y := d.AddNoCount(s);
    if FrequenciesMatch(before.counts, rows) {
      RegisterMatches(before, s, rows);
    }
  }

  ghost predicate FrequenciesMatch(cnt: seq<nat>, rows: seq<seq<nat>>) {
    && (forall id :: 0 <= id < |cnt| && id < |rows| ==> cnt[id] == |rows[id]|)
    && (forall id :: |rows| <= id < |cnt| ==> cnt[id] == 0)
    && (forall id :: |cnt| <= id < |rows| ==> rows[id] == [])
  }

  lemma RegisterMatches(d: Dict, s: Name, rows: seq<seq<nat>>)
    requires DictOk(d) && FrequenciesMatch(d.counts, rows)
    ensures FrequenciesMatch(Perform(d, Operation.Register(s)).counts, rows)
  {
  }

  lemma CountMatches(d: Dict, s: Name, rows: seq<seq<nat>>, id: nat, x: nat)
    requires DictOk(d) && FrequenciesMatch(d.counts, rows)
    requires id == Position(Perform(d, Count(s)).names, s) < |rows|
    ensures FrequenciesMatch(Perform(d, Count(s)).counts, rows[id := rows[id] + [x]])
  {
    var i := Position(d.names, s);
    if i >= 0 {
      PositionOf(d.names, i);
    } else {
      PositionOf(d.names + [s], |d.names|);
    }
  }

  lemma GrowMatches(cnt: seq<nat>, rows: seq<seq<nat>>)
    ensures FrequenciesMatch(cnt, rows) ==> FrequenciesMatch(cnt, rows + [[]])
  {
  }

  lemma GrowUsers(f: Feed)
    requires FeedOk(f)
    ensures FeedOk(Feed(f.users + [[]], f.items, f.times + [[]], f.count))
  {
    assert (f.users + [[]])[..|f.users|] == f.users;
    forall i: nat | i < |f.items|
      ensures Times(f.items[i], |f.users|) == 0
    {
      AbsentTimes(f.items[i], |f.users|);
    }
  }

  lemma GrowItems(f: Feed)
    requires FeedOk(f)
    ensures FeedOk(Feed(f.users, f.items + [[]], f.times, f.count))
  {
    forall u: nat | u < |f.users|
      ensures Times(f.users[u], |f.items|) == 0
    {
      AbsentTimes(f.users[u], |f.items|);
    }
  }

  lemma {:induction false} AbsentTimes(s: seq<nat>, x: nat)
    requires forall k :: 0 <= k < |s| ==> s[k] < x
    ensures Times(s, x) == 0
  {
    if s != [] {
      AbsentTimes(s[..|s| - 1], x);
    }
  }
}
