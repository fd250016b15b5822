/** Merging the negative, positive and read feedback into the rows of the
    click-through dataset.

    The stream of a phase is split by groups of items that are read in parallel;
    `stream` below is the order in which the records of all groups are taken in,
    and every result holds for every order. A timestamp is an integer. */
module FeedbackMerge {
  import opened Collections
  import opened Dictionary

  datatype Record = Record(user: Name, item: Name, time: int)

  /** An entry of the parallel lists Users, Items, Target and Timestamps. */
  datatype Row = Row(user: nat, item: nat, target: int, time: int)

  datatype Names = Names(users: seq<Name>, items: seq<Name>)

  predicate Refers(r: Record, n: Names, u: nat, i: nat) {
    Position(n.users, r.user) == u && Position(n.items, r.item) == i
  }

  // ------------------------------------------------------------------
  // What the rows should be
  // ------------------------------------------------------------------

  /** The latest time of a feedback of user `u` on item `i`. */
  function Latest(s: seq<Record>, n: Names, u: nat, i: nat): Option<int> {
    if s == [] then None
    else
      var before, r := Latest(s[..|s| - 1], n, u, i), s[|s| - 1];
      if Refers(r, n, u, i) && (before.None? || r.time > before.value) then Some(r.time) else before
  }

  predicate IsLatest(s: seq<Record>, n: Names, u: nat, i: nat, t: int) {
    && (exists k :: 0 <= k < |s| && Refers(s[k], n, u, i) && s[k].time == t)
    && (forall k :: 0 <= k < |s| && Refers(s[k], n, u, i) ==> s[k].time <= t)
  }

  predicate NoneRefers(s: seq<Record>, n: Names, u: nat, i: nat) {
    forall k :: 0 <= k < |s| ==> !Refers(s[k], n, u, i)
  }

  lemma NoneRefersAppend(s: seq<Record>, r: Record, n: Names, u: nat, i: nat)
    requires NoneRefers(s, n, u, i)
    ensures if Refers(r, n, u, i) then IsLatest(s + [r], n, u, i, r.time) else NoneRefers(s + [r], n, u, i)
  {
    assert (s + [r])[|s|] == r;
  }

  lemma IsLatestAppend(s: seq<Record>, r: Record, n: Names, u: nat, i: nat, t: int)
    requires IsLatest(s, n, u, i, t)
    ensures IsLatest(s + [r], n, u, i, if Refers(r, n, u, i) && r.time > t then r.time else t)
  {
    var all := s + [r];
    var k :| 0 <= k < |s| && Refers(s[k], n, u, i) && s[k].time == t;
    assert all[k] == s[k] && all[|s|] == r;
  }

  lemma {:induction false} LatestIsMaximum(s: seq<Record>, n: Names, u: nat, i: nat)
    ensures var l := Latest(s, n, u, i);
      if l.Some? then IsLatest(s, n, u, i, l.value) else NoneRefers(s, n, u, i)
  {
    if s != [] {
      var front, r := s[..|s| - 1], s[|s| - 1];
      assert s == front + [r];
      LatestIsMaximum(front, n, u, i);
      var before := Latest(front, n, u, i);
      if before.Some? {
        IsLatestAppend(front, r, n, u, i, before.value);
      } else {
        NoneRefersAppend(front, r, n, u, i);
      }
    }
  }

  /** The row of a pair: the class of highest priority decides. Without configured
      negative types `negative` is None. */
  function Decided(negative: Option<seq<Record>>, positive: seq<Record>, read: seq<Record>, n: Names, u: nat,
                   i: nat): Option<Row> {
    var a := if negative.Some? then Latest(negative.value, n, u, i) else None;
    var b, c := Latest(positive, n, u, i), Latest(read, n, u, i);
    if a.Some? then Some(Row(u, i, -1, a.value))
    else if b.Some? then Some(Row(u, i, 1, b.value))
    else if c.Some? then Some(Row(u, i, -1, c.value))
    else None
  }

  /** A positive record is used if both names are known and the user has no negative
      feedback on the item. */
  predicate Used(r: Record, negative: Option<seq<Record>>, n: Names) {
    && Position(n.users, r.user) >= 0 && Position(n.items, r.item) >= 0
    && (negative.Some? ==> Latest(negative.value, n, Position(n.users, r.user), Position(n.items, r.item)).None?)
  }

  /** The used records, in order and with their repeats. */
  function UsedPositives(positive: seq<Record>, negative: Option<seq<Record>>, n: Names): seq<Record> {
    if positive == [] then []
    else UsedPositives(positive[..|positive| - 1], negative, n)
         + if Used(positive[|positive| - 1], negative, n) then [positive[|positive| - 1]] else []
  }

  function CountTarget(rows: seq<Row>, target: int): nat {
    if rows == [] then 0
    else CountTarget(rows[..|rows| - 1], target) + (if rows[|rows| - 1].target == target then 1 else 0)
  }

  predicate DistinctPairs(rows: seq<Row>) {
    forall j, k :: 0 <= j < k < |rows| ==> rows[j].user != rows[k].user || rows[j].item != rows[k].item
  }

  /** One row for each pair that has any feedback, and it is the decided one. */
  ghost predicate IsMerged(rows: seq<Row>, positiveCount: nat, negativeCount: nat,
                           negative: Option<seq<Record>>, positive: seq<Record>, read: seq<Record>, n: Names)
  {
    && DistinctPairs(rows)
    && (forall r: Row :: r in rows <==> Decided(negative, positive, read, n, r.user, r.item) == Some(r))
    && positiveCount == CountTarget(rows, 1)
    && negativeCount == CountTarget(rows, -1)
    && positiveCount + negativeCount == |rows|
  }

  // ------------------------------------------------------------------
  // Tables of latest times
  // ------------------------------------------------------------------

  function Lookup(m: map<nat, int>, i: nat): Option<int> {
    if i in m then Some(m[i]) else None
  }

  function Raised(m: map<nat, int>, i: nat, t: int): map<nat, int> {
    if i !in m || t > m[i] then m[i := t] else m
  }

  /** Per user, the latest times of the items that are not barred for that user. */
  ghost predicate Tracks(times: seq<map<nat, int>>, s: seq<Record>, n: Names, barred: seq<set<nat>>) {
    && |times| == |barred|
    && forall u: nat, i: nat :: u < |times| ==>
         Lookup(times[u], i) == if i in barred[u] then None else Latest(s, n, u, i)
  }

  predicate Survives(r: Record, n: Names, barred: seq<set<nat>>) {
    var u, i := Position(n.users, r.user), Position(n.items, r.item);
    0 <= u < |barred| && i >= 0 && i !in barred[u]
  }

  function Surviving(s: seq<Record>, n: Names, barred: seq<set<nat>>): seq<Record> {
    if s == [] then []
    else Surviving(s[..|s| - 1], n, barred) + (if Survives(s[|s| - 1], n, barred) then [s[|s| - 1]] else [])
  }

  lemma TracksStep(times: seq<map<nat, int>>, s: seq<Record>, r: Record, n: Names, barred: seq<set<nat>>)
    requires Tracks(times, s, n, barred) && |n.users| <= |barred|
    ensures !Survives(r, n, barred) ==> Tracks(times, s + [r], n, barred)
    ensures Survives(r, n, barred) ==>
      var u, i := Position(n.users, r.user), Position(n.items, r.item);
      Tracks(times[u := Raised(times[u], i, r.time)], s + [r], n, barred)
  {
    assert (s + [r])[..|s|] == s;
    if Survives(r, n, barred) {
      var u, i := Position(n.users, r.user), Position(n.items, r.item);
      var times' := times[u := Raised(times[u], i, r.time)];
      forall v: nat, j: nat | v < |times|
        ensures Lookup(times'[v], j) == if j in barred[v] then None else Latest(s + [r], n, v, j)
      {
        assert Lookup(times[v], j) == if j in barred[v] then None else Latest(s, n, v, j);
      }
    }
  }

  lemma SurvivingStep(s: seq<Record>, r: Record, n: Names, barred: seq<set<nat>>)
    ensures Surviving(s + [r], n, barred) == Surviving(s, n, barred) + if Survives(r, n, barred) then [r] else []
  {
    assert (s + [r])[..|s|] == s;
  }

  function NoneBarred(numUsers: nat): (r: seq<set<nat>>)
    ensures |r| == numUsers && forall u :: 0 <= u < numUsers ==> r[u] == {}
  {
    seq(numUsers, _ => {})
  }

  // ------------------------------------------------------------------
  // The three phases
  // ------------------------------------------------------------------

  /** The body of the negative and of the read loop for one accepted record. */
  method KeepLatest(sets: seq<set<nat>>, times: seq<map<nat, int>>, u: nat, i: nat, t: int)
    returns (sets': seq<set<nat>>, times': seq<map<nat, int>>)
    requires u < |sets| == |times| && forall v :: 0 <= v < |sets| ==> sets[v] == times[v].Keys
    ensures times' == times[u := Raised(times[u], i, t)]
    ensures |sets'| == |sets| && forall v :: 0 <= v < |sets| ==> sets'[v] == times'[v].Keys
  {
    sets' := sets[u := sets[u] + {i}];
    times' := times;
    if i !in times[u] || t > times[u][i] {
      var newer: map<nat, int> := times[u][i := t];
      times' := times[u := newer];
    }
  }

  method PullNegative(stream: seq<Record>, users: FreqDict, items: FreqDict, numUsers: nat)
    returns (negativeSet: seq<set<nat>>, negativeTimestamps: seq<map<nat, int>>)
    requires users.Valid() && items.Valid() && |users.names| <= numUsers
    ensures Tracks(negativeTimestamps, stream, Names(users.names, items.names), NoneBarred(numUsers))
    ensures |negativeSet| == numUsers && forall u :: 0 <= u < numUsers ==> negativeSet[u] == negativeTimestamps[u].Keys
  {
    ghost var n := Names(users.names, items.names);
    negativeSet, negativeTimestamps := seq(numUsers, _ => {}), seq(numUsers, _ => map[]);
    for k := 0 to |stream|
      invariant Tracks(negativeTimestamps, stream[..k], n, NoneBarred(numUsers))
      invariant |negativeSet| == numUsers
      invariant forall u :: 0 <= u < numUsers ==> negativeSet[u] == negativeTimestamps[u].Keys
    {
      var f := stream[k];
      TracksStep(negativeTimestamps, stream[..k], f, n, NoneBarred(numUsers));
      assert stream[..k + 1] == stream[..k] + [f];
      var userIndex := users.Id(f.user);
      if userIndex == NOT_ID {
        continue;
      }
      var itemIndex := items.Id(f.item);
      if itemIndex == NOT_ID {
        continue;
      }
      negativeSet, negativeTimestamps := KeepLatest(negativeSet, negativeTimestamps, userIndex, itemIndex, f.time);
    }
    assert stream[..|stream|] == stream;
  }

  /** LoadOrStore, then CompareAndSwap until one of them settles the record; alone,
      each of the two steps is atomic. */
  method StorePositive(m: map<nat, int>, i: nat, t: int) returns (m': map<nat, int>)
    ensures m' == Raised(m, i, t)
  {
    m' := m;
    if i !in m' {
      m' := m'[i := t];
      return;
    }
    var timestamp := m'[i];
    if t > timestamp {
      m' := m'[i := t];
    }
  }

  /** Besides the table this phase hands the records it accepts, in order, to the
      dataset and the recommenders: `kept`. */
  method PullPositive(stream: seq<Record>, users: FreqDict, items: FreqDict, numUsers: nat,
                      negativeSet: Option<seq<set<nat>>>)
    returns (positiveFeedback: seq<map<nat, int>>, kept: seq<Record>)
    requires users.Valid() && items.Valid() && |users.names| <= numUsers
    requires negativeSet.Some? ==> |negativeSet.value| == numUsers
    ensures var barred := if negativeSet.Some? then negativeSet.value else NoneBarred(numUsers);
      && Tracks(positiveFeedback, stream, Names(users.names, items.names), barred)
      && kept == Surviving(stream, Names(users.names, items.names), barred)
  {
    ghost var n := Names(users.names, items.names);
    ghost var barred := if negativeSet.Some? then negativeSet.value else NoneBarred(numUsers);
    positiveFeedback, kept := seq(numUsers, _ => map[]), [];
    for k := 0 to |stream|
      invariant Tracks(positiveFeedback, stream[..k], n, barred)
      invariant kept == Surviving(stream[..k], n, barred)
    {
      var f := stream[k];
      TracksStep(positiveFeedback, stream[..k], f, n, barred);
      SurvivingStep(stream[..k], f, n, barred);
      assert stream[..k + 1] == stream[..k] + [f];
      var userIndex := users.Id(f.user);
      if userIndex == NOT_ID {
        continue;
      }
      var itemIndex := items.Id(f.item);
      if itemIndex == NOT_ID {
        continue;
      }
      if negativeSet.Some? && itemIndex in negativeSet.value[userIndex] {
        continue;
      }
      var stored := StorePositive(positiveFeedback[userIndex], itemIndex, f.time);
      positiveFeedback := positiveFeedback[userIndex := stored];
      kept := kept + [f];
    }
    assert stream[..|stream|] == stream;
  }

  /** What bars a read record. */
  function BarredFromRead(negativeSet: Option<seq<set<nat>>>, positiveFeedback: seq<map<nat, int>>): (r: seq<set<nat>>)
    requires negativeSet.Some? ==> |negativeSet.value| == |positiveFeedback|
    ensures |r| == |positiveFeedback|
    ensures forall u :: 0 <= u < |r| ==>
      r[u] == (if negativeSet.Some? then negativeSet.value[u] else {}) + positiveFeedback[u].Keys
  {
    seq(|positiveFeedback|, u requires 0 <= u < |positiveFeedback| =>
      (if negativeSet.Some? then negativeSet.value[u] else {}) + positiveFeedback[u].Keys)
  }

  method PullRead(stream: seq<Record>, users: FreqDict, items: FreqDict, negativeSet: Option<seq<set<nat>>>,
                  positiveFeedback: seq<map<nat, int>>)
    returns (readSet: seq<set<nat>>, readTimestamps: seq<map<nat, int>>)
    requires users.Valid() && items.Valid() && |users.names| <= |positiveFeedback|
    requires negativeSet.Some? ==> |negativeSet.value| == |positiveFeedback|
    ensures Tracks(readTimestamps, stream, Names(users.names, items.names),
                   BarredFromRead(negativeSet, positiveFeedback))
    ensures |readSet| == |positiveFeedback| && forall u :: 0 <= u < |readSet| ==> readSet[u] == readTimestamps[u].Keys
  {
    ghost var n := Names(users.names, items.names);
    ghost var barred := BarredFromRead(negativeSet, positiveFeedback);
    readSet, readTimestamps := seq(|positiveFeedback|, _ => {}), seq(|positiveFeedback|, _ => map[]);
    for k := 0 to |stream|
      invariant Tracks(readTimestamps, stream[..k], n, barred)
      invariant |readSet| == |positiveFeedback|
      invariant forall u :: 0 <= u < |readSet| ==> readSet[u] == readTimestamps[u].Keys
    {
      var f := stream[k];
      TracksStep(readTimestamps, stream[..k], f, n, barred);
      assert stream[..k + 1] == stream[..k] + [f];
      var userIndex := users.Id(f.user);
      if userIndex == NOT_ID {
        continue;
      }
      var itemIndex := items.Id(f.item);
      if itemIndex == NOT_ID {
        continue;
      }
      var hasPositiveFeedback := itemIndex in positiveFeedback[userIndex];
      if (negativeSet.Some? && itemIndex in negativeSet.value[userIndex]) || hasPositiveFeedback {
        continue;
      }
      readSet, readTimestamps := KeepLatest(readSet, readTimestamps, userIndex, itemIndex, f.time);
    }
    assert stream[..|stream|] == stream;
  }

  // ------------------------------------------------------------------
  // The rows
  // ------------------------------------------------------------------

  /** One row for each item of `m`. */
  ghost predicate RowsOf(rows: seq<Row>, u: nat, m: map<nat, int>, target: int) {
    && DistinctPairs(rows)
    && forall r: Row :: r in rows <==> r.user == u && r.target == target && Lookup(m, r.item) == Some(r.time)
  }

  lemma {:induction false} CountOfOne(rows: seq<Row>, target: int, other: int)
    requires forall k :: 0 <= k < |rows| ==> rows[k].target == target
    ensures CountTarget(rows, other) == if other == target then |rows| else 0
  {
    if rows != [] {
      CountOfOne(rows[..|rows| - 1], target, other);
    }
  }

  lemma {:induction false} CountConcat(a: seq<Row>, b: seq<Row>, target: int)
    ensures CountTarget(a + b, target) == CountTarget(a, target) + CountTarget(b, target)
  {
    if b == [] {
      assert a + b == a;
    } else {
      assert (a + b)[..|a + b| - 1] == a + b[..|b| - 1];
      CountConcat(a, b[..|b| - 1], target);
    }
  }

  lemma DistinctConcat(a: seq<Row>, b: seq<Row>)
    requires DistinctPairs(a) && DistinctPairs(b)
    requires forall x, y :: x in a && y in b ==> x.user != y.user || x.item != y.item
    ensures DistinctPairs(a + b)
  {
    forall j, k | 0 <= j < k < |a + b|
      ensures (a + b)[j].user != (a + b)[k].user || (a + b)[j].item != (a + b)[k].item
    {
      if j < |a| <= k {
        assert (a + b)[j] in a && (a + b)[k] in b;
      }
    }
  }

  /** The rows of user `u` for the items of `m`, in the arbitrary order of the set. */
  method AppendRows(u: nat, m: map<nat, int>, target: int) returns (rows: seq<Row>)
    ensures RowsOf(rows, u, m, target)
  {
    rows := [];
    var rest := m.Keys;
    while rest != {}
      invariant rest <= m.Keys
      invariant DistinctPairs(rows)
      invariant forall r: Row :: r in rows <==>
        r.user == u && r.target == target && r.item in m && r.item !in rest && m[r.item] == r.time
      decreases |rest|
    {
      var i := PickOne(rest);
      DistinctConcat(rows, [Row(u, i, target, m[i])]);
      rows := rows + [Row(u, i, target, m[i])];
      rest := rest - {i};
    }
  }

  /** What the tables say about a pair. */
  function FromTables(a: map<nat, int>, b: map<nat, int>, c: map<nat, int>, u: nat, i: nat): Option<Row> {
    if i in a then Some(Row(u, i, -1, a[i]))
    else if i in b then Some(Row(u, i, 1, b[i]))
    else if i in c then Some(Row(u, i, -1, c[i]))
    else None
  }

  ghost predicate RowsOfUser(rows: seq<Row>, u: nat, a: map<nat, int>, b: map<nat, int>, c: map<nat, int>) {
    && DistinctPairs(rows)
    && forall r: Row :: r in rows <==> r.user == u && FromTables(a, b, c, u, r.item) == Some(r)
  }

  lemma JoinClasses(x: seq<Row>, y: seq<Row>, z: seq<Row>, u: nat, a: map<nat, int>, b: map<nat, int>, c: map<nat, int>)
    requires RowsOf(x, u, a, -1) && RowsOf(y, u, b, 1) && RowsOf(z, u, c, -1)
    requires a.Keys !! b.Keys && a.Keys !! c.Keys && b.Keys !! c.Keys
    ensures RowsOfUser(x + y + z, u, a, b, c)
    ensures CountTarget(x + y + z, 1) == |y| && CountTarget(x + y + z, -1) == |x| + |z|
  {
    JoinRows(x, y, z, u, a, b, c);
    CountJoined(x, y, z, 1);
    CountJoined(x, y, z, -1);
    CountsOfRows(x, u, a, -1);
    CountsOfRows(y, u, b, 1);
    CountsOfRows(z, u, c, -1);
  }

  lemma JoinRows(x: seq<Row>, y: seq<Row>, z: seq<Row>, u: nat, a: map<nat, int>, b: map<nat, int>, c: map<nat, int>)
    requires RowsOf(x, u, a, -1) && RowsOf(y, u, b, 1) && RowsOf(z, u, c, -1)
    requires a.Keys !! b.Keys && a.Keys !! c.Keys && b.Keys !! c.Keys
    ensures RowsOfUser(x + y + z, u, a, b, c)
  {
    DistinctConcat(x, y);
    DistinctConcat(x + y, z);
  }

  lemma CountJoined(x: seq<Row>, y: seq<Row>, z: seq<Row>, target: int)
    ensures CountTarget(x + y + z, target) == CountTarget(x, target) + CountTarget(y, target) + CountTarget(z, target)
  {
    CountConcat(x, y, target);
    CountConcat(x + y, z, target);
  }

  lemma CountsOfRows(rows: seq<Row>, u: nat, m: map<nat, int>, target: int)
    requires RowsOf(rows, u, m, target)
    ensures forall other :: CountTarget(rows, other) == if other == target then |rows| else 0
  {
    forall k | 0 <= k < |rows|
      ensures rows[k].target == target
    {
      assert rows[k] in rows;
    }
    forall other: int
      ensures CountTarget(rows, other) == if other == target then |rows| else 0
    {
      CountOfOne(rows, target, other);
    }
  }

  predicate DisjointTables(a: seq<map<nat, int>>, b: seq<map<nat, int>>, c: seq<map<nat, int>>) {
    && |a| == |b| == |c|
    && forall u :: 0 <= u < |a| ==> a[u].Keys !! b[u].Keys && a[u].Keys !! c[u].Keys && b[u].Keys !! c[u].Keys
  }

  ghost predicate RowsBelow(rows: seq<Row>, positiveCount: nat, negativeCount: nat, last: nat,
                            a: seq<map<nat, int>>, b: seq<map<nat, int>>, c: seq<map<nat, int>>)
    requires |a| == |b| == |c| && last <= |a|
  {
    && DistinctPairs(rows)
    && (forall r: Row :: r in rows <==>
        r.user < last && FromTables(a[r.user], b[r.user], c[r.user], r.user, r.item) == Some(r))
    && positiveCount == CountTarget(rows, 1)
    && negativeCount == CountTarget(rows, -1)
    && positiveCount + negativeCount == |rows|
  }

  lemma NextUser(rows: seq<Row>, p: nat, n: nat, u: nat, a: seq<map<nat, int>>, b: seq<map<nat, int>>, 
                 c: seq<map<nat, int>>,
                 x: seq<Row>, y: seq<Row>, z: seq<Row>)
    requires DisjointTables(a, b, c) && u < |a| && RowsBelow(rows, p, n, u, a, b, c)
    requires RowsOf(x, u, a[u], -1) && RowsOf(y, u, b[u], 1) && RowsOf(z, u, c[u], -1)
    ensures RowsBelow(rows + x + y + z, p + |y|, n + |x| + |z|, u + 1, a, b, c)
  {
    JoinClasses(x, y, z, u, a[u], b[u], c[u]);
    var more := x + y + z;
    assert rows + x + y + z == rows + more;
    DistinctConcat(rows, more);
    CountConcat(rows, more, 1);
    CountConcat(rows, more, -1);
  }

  /** The last step: append the rows of all users. */
  method CreateRows(negativeSet: Option<seq<set<nat>>>, ghost negative: seq<map<nat, int>>,
                    negativeTimestamps: seq<map<nat, int>>,
                    positiveFeedback: seq<map<nat, int>>, readTimestamps: seq<map<nat, int>>)
    returns (rows: seq<Row>, positiveCount: nat, negativeCount: nat)
    requires DisjointTables(negative, positiveFeedback, readTimestamps)
    requires if negativeSet.Some? then negative == negativeTimestamps
             else forall u :: 0 <= u < |negative| ==> negative[u] == map[]
    ensures RowsBelow(rows, positiveCount, negativeCount, |negative|, negative, positiveFeedback, readTimestamps)
  {
    rows, positiveCount, negativeCount := [], 0, 0;
    for u := 0 to |positiveFeedback|
      invariant RowsBelow(rows, positiveCount, negativeCount, u, negative, positiveFeedback, readTimestamps)
    {
      ghost var before := rows;
      var x := [];
      if negativeSet.Some? {
        x := AppendRows(u, negativeTimestamps[u], -1);
      }
      var y := AppendRows(u, positiveFeedback[u], 1);
      var z := AppendRows(u, readTimestamps[u], -1);
      NextUser(rows, positiveCount, negativeCount, u, negative, positiveFeedback, readTimestamps, x, y, z);
      rows := rows + x + y + z;
      positiveCount := positiveCount + |y|;
      negativeCount := negativeCount + |x| + |z|;
    }
  }

  function KeysOf(a: seq<map<nat, int>>): (r: seq<set<nat>>)
    ensures |r| == |a| && forall v :: 0 <= v < |a| ==> r[v] == a[v].Keys
  {
    seq(|a|, v requires 0 <= v < |a| => a[v].Keys)
  }

  function KeysOfBoth(a: seq<map<nat, int>>, b: seq<map<nat, int>>): (r: seq<set<nat>>)
    requires |a| == |b|
    ensures |r| == |a| && forall v :: 0 <= v < |a| ==> r[v] == a[v].Keys + b[v].Keys
  {
    seq(|a|, v requires 0 <= v < |a| => a[v].Keys + b[v].Keys)
  }

  lemma TablesDecide(a: seq<map<nat, int>>, b: seq<map<nat, int>>, c: seq<map<nat, int>>, negative: Option<seq<Record>>,
                     positive: seq<Record>, read: seq<Record>, n: Names, u: nat, i: nat)
    requires |a| == |b| == |c|
    requires if negative.Some? then Tracks(a, negative.value, n, NoneBarred(|a|))
             else forall v :: 0 <= v < |a| ==> a[v] == map[]
    requires Tracks(b, positive, n, KeysOf(a))
    requires Tracks(c, read, n, KeysOfBoth(a, b))
    requires u < |a|
    ensures FromTables(a[u], b[u], c[u], u, i) == Decided(negative, positive, read, n, u, i)
    ensures !(i in a[u] && i in b[u]) && !(i in a[u] && i in c[u]) && !(i in b[u] && i in c[u])
  {
    if negative.Some? {
      assert Lookup(a[u], i) == Latest(negative.value, n, u, i);
    }
    assert Lookup(b[u], i) == if i in a[u] then None else Latest(positive, n, u, i);
    assert Lookup(c[u], i) == if i in a[u] || i in b[u] then None else Latest(read, n, u, i);
  }

  lemma BarredKeys(negativeSet: Option<seq<set<nat>>>, a: seq<map<nat, int>>, b: seq<map<nat, int>>)
    requires |a| == |b| && SetsMatch(negativeSet, a)
    ensures (if negativeSet.Some? then negativeSet.value else NoneBarred(|a|)) == KeysOf(a)
    ensures BarredFromRead(negativeSet, b) == KeysOfBoth(a, b)
  {
  }

  /** The negative set of every user holds the items that have a negative time. */
  ghost predicate SetsMatch(negativeSet: Option<seq<set<nat>>>, a: seq<map<nat, int>>) {
    && (negativeSet.Some? ==> |negativeSet.value| == |a|)
    && forall v :: 0 <= v < |a| ==> a[v].Keys == if negativeSet.Some? then negativeSet.value[v] else {}
  }

  lemma AllDecided(a: seq<map<nat, int>>, b: seq<map<nat, int>>, c: seq<map<nat, int>>, negative: Option<seq<Record>>,
                   positive: seq<Record>, read: seq<Record>, n: Names)
    requires |a| == |b| == |c|
    requires if negative.Some? then Tracks(a, negative.value, n, NoneBarred(|a|))
             else forall v :: 0 <= v < |a| ==> a[v] == map[]
    requires Tracks(b, positive, n, KeysOf(a))
    requires Tracks(c, read, n, KeysOfBoth(a, b))
    ensures DisjointTables(a, b, c)
    ensures forall u: nat, i: nat :: u < |a| ==>
      FromTables(a[u], b[u], c[u], u, i) == Decided(negative, positive, read, n, u, i)
  {
    forall u: nat, i: nat | u < |a|
      ensures FromTables(a[u], b[u], c[u], u, i) == Decided(negative, positive, read, n, u, i)
      ensures !(i in a[u] && i in b[u]) && !(i in a[u] && i in c[u]) && !(i in b[u] && i in c[u])
    {
      TablesDecide(a, b, c, negative, positive, read, n, u, i);
    }
  }

  lemma {:induction false} SurvivorsAreUsed(s: seq<Record>, a: seq<map<nat, int>>, negative: Option<seq<Record>>,
                                            n: Names)
    requires |n.users| <= |a|
    requires if negative.Some? then Tracks(a, negative.value, n, NoneBarred(|a|))
             else forall v :: 0 <= v < |a| ==> a[v] == map[]
    ensures Surviving(s, n, KeysOf(a)) == UsedPositives(s, negative, n)
  {
    if s != [] {
      SurvivorsAreUsed(s[..|s| - 1], a, negative, n);
      var r := s[|s| - 1];
      var u, i := Position(n.users, r.user), Position(n.items, r.item);
      if u >= 0 && i >= 0 && negative.Some? {
        assert Lookup(a[u], i) == Latest(negative.value, n, u, i);
      }
    }
  }

  lemma {:induction false} UnknownUser(s: seq<Record>, n: Names, u: nat, i: nat)
    requires u >= |n.users|
    ensures Latest(s, n, u, i) == None
  {
    if s != [] {
      UnknownUser(s[..|s| - 1], n, u, i);
    }
  }

  lemma MergedFromTables(rows: seq<Row>, p: nat, q: nat, a: seq<map<nat, int>>, b: seq<map<nat, int>>, 
                         c: seq<map<nat, int>>,
                         negative: Option<seq<Record>>, positive: seq<Record>, read: seq<Record>, n: Names)
    requires |a| == |b| == |c| >= |n.users| && RowsBelow(rows, p, q, |a|, a, b, c)
    requires forall u: nat, i: nat :: u < |a| ==>
      FromTables(a[u], b[u], c[u], u, i) == Decided(negative, positive, read, n, u, i)
    ensures IsMerged(rows, p, q, negative, positive, read, n)
  {
    forall r: Row
      ensures r in rows <==> Decided(negative, positive, read, n, r.user, r.item) == Some(r)
    {
      if r.user >= |a| {
        if negative.Some? {
          UnknownUser(negative.value, n, r.user, r.item);
        }
        UnknownUser(positive, n, r.user, r.item);
        UnknownUser(read, n, r.user, r.item);
      } else {
        assert FromTables(a[r.user], b[r.user], c[r.user], r.user, r.item)
          == Decided(negative, positive, read, n, r.user, r.item);
      }
    }
  }

  /** The three phases, one after the other, and the rows. `negative` is None when
      no negative feedback type is configured. */
  method MergeFeedback(negative: Option<seq<Record>>, positive: seq<Record>, read: seq<Record>,
                       users: FreqDict, items: FreqDict, numUsers: nat)
    returns (rows: seq<Row>, positiveCount: nat, negativeCount: nat, kept: seq<Record>)
    requires users.Valid() && items.Valid() && |users.names| <= numUsers
    ensures IsMerged(rows, positiveCount, negativeCount, negative, positive, read, Names(users.names, items.names))
    ensures kept == UsedPositives(positive, negative, Names(users.names, items.names))
  {
    var negativeSet, negativeTimestamps := None, [];
    ghost var a: seq<map<nat, int>> := seq(numUsers, _ => map[]);
    if negative.Some? {
      var sets;
      sets, negativeTimestamps := PullNegative(negative.value, users, items, numUsers);
      negativeSet := Some(sets);
      a := negativeTimestamps;
    }
    assert SetsMatch(negativeSet, a);
    var b;
    b, kept := PullPositive(positive, users, items, numUsers, negativeSet);
    var readSet, c := PullRead(read, users, items, negativeSet, b);
    ghost var n := Names(users.names, items.names);
    BarredKeys(negativeSet, a, b);
    SurvivorsAreUsed(positive, a, negative, n);
    AllDecided(a, b, c, negative, positive, read, n);
    rows, positiveCount, negativeCount := CreateRows(negativeSet, a, negativeTimestamps, b, c);
    MergedFromTables(rows, positiveCount, negativeCount, a, b, c, negative, positive, read, n);
  }

  // ------------------------------------------------------------------
  // What the rows and the kept records mean
  // ------------------------------------------------------------------

  predicate AnyRefers(s: seq<Record>, n: Names, u: nat, i: nat) {
    exists k :: 0 <= k < |s| && Position(n.users, s[k].user) == u && Position(n.items, s[k].item) == i
  }

  /** A row is there if and only if it has the target of the first class that has
      feedback for its pair, -1 for negative, 1 for positive and -1 for read, and the
      latest time of that class. */
  lemma MergedRows(rows: seq<Row>, p: nat, q: nat, negative: Option<seq<Record>>, positive: seq<Record>,
                   read: seq<Record>, n: Names, r: Row)
    requires IsMerged(rows, p, q, negative, positive, read, n)
    ensures var bad, u, i := if negative.Some? then negative.value else [], r.user, r.item;
      r in rows <==>
        if AnyRefers(bad, n, u, i) then r.target == -1 && IsLatest(bad, n, u, i, r.time)
        else if AnyRefers(positive, n, u, i) then r.target == 1 && IsLatest(positive, n, u, i, r.time)
        else AnyRefers(read, n, u, i) && r.target == -1 && IsLatest(read, n, u, i, r.time)
  {
    var bad := if negative.Some? then negative.value else [];
    LatestMeans(bad, n, r.user, r.item, r.time);
    LatestMeans(positive, n, r.user, r.item, r.time);
    LatestMeans(read, n, r.user, r.item, r.time);
  }

  lemma LatestMeans(s: seq<Record>, n: Names, u: nat, i: nat, t: int)
    ensures Latest(s, n, u, i).Some? <==> AnyRefers(s, n, u, i)
    ensures Latest(s, n, u, i) == Some(t) <==> IsLatest(s, n, u, i, t)
  {
    LatestIsMaximum(s, n, u, i);
    if IsLatest(s, n, u, i, t) {
      var k :| 0 <= k < |s| && Refers(s[k], n, u, i) && s[k].time == t;
    }
  }

  /** A record is used if both names are known and no negative record is on the same
      pair. */
  lemma UsedMeans(r: Record, negative: Option<seq<Record>>, n: Names)
    ensures var u, i := Position(n.users, r.user), Position(n.items, r.item);
      Used(r, negative, n) <==>
        r.user in n.users && r.item in n.items && (negative.Some? ==> !AnyRefers(negative.value, n, u, i))
  {
    var u, i := Position(n.users, r.user), Position(n.items, r.item);
    if negative.Some? && u >= 0 && i >= 0 {
      LatestMeans(negative.value, n, u, i, 0);
    }
  }

  /** The records handed on are exactly the used ones, in stream order. */
  lemma {:induction false} UsedInOrder(positive: seq<Record>, negative: Option<seq<Record>>, n: Names)
    returns (at: seq<nat>)
    ensures Picks(UsedPositives(positive, negative, n), positive, at)
    ensures forall p: nat :: p < |positive| ==> (p in at <==> Used(positive[p], negative, n))
  {
    if positive == [] {
      at := [];
    } else {
      var k := |positive| - 1;
      assert positive == positive[..k] + [positive[k]];
      at := UsedInOrder(positive[..k], negative, n);
      if Used(positive[k], negative, n) {
        at := at + [k];
      }
    }
  }

  // ------------------------------------------------------------------
  // Order does not matter
  // ------------------------------------------------------------------

  predicate SameRecords(s: seq<Record>, s': seq<Record>) {
    (forall k :: 0 <= k < |s| ==> s[k] in s') && (forall k :: 0 <= k < |s'| ==> s'[k] in s)
  }

  lemma LatestIgnoresOrder(s: seq<Record>, s': seq<Record>, n: Names, u: nat, i: nat)
    requires SameRecords(s, s')
    ensures Latest(s, n, u, i) == Latest(s', n, u, i)
  {
    LatestIsMaximum(s, n, u, i);
    LatestIsMaximum(s', n, u, i);
    LatestAtMost(s, s', n, u, i);
    LatestAtMost(s', s, n, u, i);
  }

  lemma LatestAtMost(s: seq<Record>, s': seq<Record>, n: Names, u: nat, i: nat)
    requires SameRecords(s, s')
    ensures Latest(s, n, u, i).Some? ==>
      Latest(s', n, u, i).Some? && Latest(s, n, u, i).value <= Latest(s', n, u, i).value
  {
    LatestIsMaximum(s, n, u, i);
    LatestIsMaximum(s', n, u, i);
    if Latest(s, n, u, i).Some? {
      var k :| 0 <= k < |s| && Refers(s[k], n, u, i) && s[k].time == Latest(s, n, u, i).value;
      var k' :| 0 <= k' < |s'| && s'[k'] == s[k];
    }
  }

  lemma {:induction false} CountFromMultiset(x: seq<Row>, y: seq<Row>, target: int)
    requires multiset(x) == multiset(y)
    ensures CountTarget(x, target) == CountTarget(y, target)
  {
    if x == [] {
      assert |multiset(y)| == 0;
    } else {
      var last := x[|x| - 1];
      assert x == x[..|x| - 1] + [last];
      assert last in multiset(y);
      var j :| 0 <= j < |y| && y[j] == last;
      RemoveRow(y, j, target);
      CountFromMultiset(x[..|x| - 1], y[..j] + y[j + 1..], target);
    }
  }

  lemma RemoveRow(y: seq<Row>, j: nat, target: int)
    requires j < |y|
    ensures multiset(y[..j] + y[j + 1..]) == multiset(y) - multiset{y[j]}
    ensures CountTarget(y, target) == CountTarget(y[..j] + y[j + 1..], target) + if y[j].target == target then 1 else 0
  {
    assert y == y[..j] + [y[j]] + y[j + 1..];
    CountConcat(y[..j], y[j + 1..], target);
    CountConcat(y[..j] + [y[j]], y[j + 1..], target);
    CountConcat(y[..j], [y[j]], target);
    CountOfOne([y[j]], y[j].target, target);
  }

  lemma {:induction false} DistinctRowsMultiset(x: seq<Row>, r: Row)
    requires DistinctPairs(x)
    ensures multiset(x)[r] == if r in x then 1 else 0
  {
    if x != [] {
      assert x == x[..|x| - 1] + [x[|x| - 1]];
      DistinctRowsMultiset(x[..|x| - 1], r);
    }
  }

  /** The rows do not depend on the order or on repeats of the records: on how the
      items are grouped and the groups scheduled. */
  lemma MergeIgnoresOrder(rows: seq<Row>, p: nat, q: nat, rows': seq<Row>, p': nat, q': nat,
                          a: seq<Record>, b: seq<Record>, c: seq<Record>,
                          a': seq<Record>, b': seq<Record>, c': seq<Record>, n: Names)
    requires SameRecords(a, a') && SameRecords(b, b') && SameRecords(c, c')
    requires IsMerged(rows, p, q, Some(a), b, c, n) && IsMerged(rows', p', q', Some(a'), b', c', n)
    ensures multiset(rows) == multiset(rows') && p == p' && q == q'
  {
    forall r: Row
      ensures multiset(rows)[r] == multiset(rows')[r]
    {
      LatestIgnoresOrder(a, a', n, r.user, r.item);
      LatestIgnoresOrder(b, b', n, r.user, r.item);
      LatestIgnoresOrder(c, c', n, r.user, r.item);
      DistinctRowsMultiset(rows, r);
      DistinctRowsMultiset(rows', r);
    }
    assert multiset(rows) == multiset(rows');
    CountFromMultiset(rows, rows', 1);
    CountFromMultiset(rows, rows', -1);
  }

  /** No configured negative types means the same as no negative records. */
  lemma WithoutNegativeTypes(rows: seq<Row>, p: nat, q: nat, b: seq<Record>, c: seq<Record>, n: Names)
    ensures IsMerged(rows, p, q, None, b, c, n) <==> IsMerged(rows, p, q, Some([]), b, c, n)
  {
    assert forall u: nat, i: nat :: Decided(None, b, c, n, u, i) == Decided(Some([]), b, c, n, u, i);
  }
}
