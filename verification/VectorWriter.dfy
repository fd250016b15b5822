/** The batched writer of similarity vectors: which vectors it accepts, how it
    settles on a dimension, when it (re)creates the collection, and what happens
    to buffered vectors when a call to the vector database fails.

    The first half is a transition system over values; the class at the end is
    proved to take exactly these transitions. */
module VectorWriter {
  import opened Collections

  const DEFAULT_BATCH_SIZE := 1024

  datatype Vector = Vector(id: string, values: seq<real>, hvalues: seq<nat>, indices: seq<nat>, timestamp: int)

  /** Vector.Len: half-precision values take precedence. */
  function Len(v: Vector): nat {
    if |v.hvalues| > 0 then |v.hvalues| else |v.values|
  }

  /** What the vector database reports about a collection. */
  datatype Info = Info(dimension: nat, distance: int, quantization: string, bits: int)

  datatype Config = Config(distance: int, quantization: string, bits: int, timestamp: int, batchSize: int, sparse: bool)

  /** The collection the writer addresses, as the database holds it. */
  datatype Store = NoStore | Store(collection: Option<Info>, vectors: seq<Vector>)

  datatype Removal = Done | Missing | Broken

  /** Which database calls fail during one operation. `Missing` is a deletion
      that finds the collection already gone. */
  datatype Fates = Fates(describeFails: bool, remove: Removal, createFails: bool, insertFails: bool,
                         purgeFails: bool, optimizeFails: bool)

  datatype Status = Ok | Error | Panic

  /** A vector handed to the database, with the collection it went into. */
  datatype Delivery = Delivery(info: Info, vector: Vector)

  /** The writer's fields, the collection, and three logs of the past. */
  datatype State = State(
    store: Store,
    dimension: Option<nat>,
    ensured: bool,
    buffer: seq<Vector>,
    accepted: seq<Vector>,
    dropped: seq<Vector>,
    delivered: seq<Delivery>)

  /** newSimilarityVectorWriter's treatment of its arguments: a batch size that is
      not positive becomes the default, and a sparse writer is not quantized. */
  function Effective(c: Config): Config {
    var sized := if c.batchSize <= 0 then c.(batchSize := DEFAULT_BATCH_SIZE) else c;
    if c.sparse then sized.(quantization := "", bits := 0) else sized
  }

  function Init(c: Config, store: Store): State {
    State(store, if c.sparse then Some(0) else None, false, [], [], [], [])
  }

  predicate Acceptable(c: Config, v: Vector) {
    if |v.hvalues| > 0 then !c.sparse
    else if c.sparse then |v.indices| != 0 && |v.indices| == |v.values|
    else |v.indices| == 0 && Len(v) != 0
  }

  function Count(s: seq<Vector>, d: nat): nat {
    if s == [] then 0 else Count(s[..|s| - 1], d) + (if Len(s[|s| - 1]) == d then 1 else 0)
  }

  /** The running choice of a dimension after looking at the first `n` vectors. */
  function Leader(s: seq<Vector>, n: nat): nat
    requires 0 < |s| && n <= |s|
  {
    if n == 0 then Len(s[0])
    else
      var d := Leader(s, n - 1);
      if Count(s, Len(s[n - 1])) > Count(s, d) then Len(s[n - 1]) else d
  }

  function ChosenDimension(s: State): nat
    requires s.dimension.None? ==> s.buffer != []
  {
    if s.dimension.Some? then s.dimension.value else Leader(s.buffer, |s.buffer|)
  }

  function Fitting(s: seq<Vector>, d: nat): seq<Vector> {
    if s == [] then []
    else Fitting(s[..|s| - 1], d) + (if Len(s[|s| - 1]) == d then [s[|s| - 1]] else [])
  }

  function Misfits(s: seq<Vector>, d: nat): seq<Vector> {
    if s == [] then []
    else Misfits(s[..|s| - 1], d) + (if Len(s[|s| - 1]) != d then [s[|s| - 1]] else [])
  }

  function Wanted(c: Config, d: nat): Info {
    Info(d, c.distance, c.quantization, c.bits)
  }

  /** ensureCollectionLocked. */
  function Ensure(c: Config, s: State, f: Fates): (State, Status)
    requires s.dimension.Some?
  {
    if s.ensured then (s, Ok)
    else if s.store.NoStore? then (s, Error)
    else if f.describeFails then (s, Error)
    else
      var wanted := Wanted(c, s.dimension.value);
      var mismatch := s.store.collection.Some? && s.store.collection.value != wanted;
      if mismatch && f.remove.Broken? then (s, Error)
      else
        var cleared := if mismatch then Store(None, []) else s.store;
        if cleared.collection.None? then
          if f.createFails then (s.(store := cleared), Error)
          else (s.(store := Store(Some(wanted), []), ensured := true), Ok)
        else (s.(ensured := true), Ok)
  }

  /** The part of flushLocked before the database is involved. */
  function Settle(c: Config, s: State): State
    requires s.buffer != []
  {
    if c.sparse then s
    else
      var d := ChosenDimension(s);
      s.(dimension := Some(d), buffer := Fitting(s.buffer, d), dropped := s.dropped + Misfits(s.buffer, d))
  }

  function Deliveries(info: Info, vs: seq<Vector>): (r: seq<Delivery>)
    ensures |r| == |vs|
  {
    seq(|vs|, i requires 0 <= i < |vs| => Delivery(info, vs[i]))
  }

  /** AddVectors on a collection that exists. */
  function Insert(s: State, f: Fates): (State, Status) {
    if f.insertFails || s.store.NoStore? || s.store.collection.None? then (s, Error)
    else (s.(store := s.store.(vectors := s.store.vectors + s.buffer),
             delivered := s.delivered + Deliveries(s.store.collection.value, s.buffer),
             buffer := []), Ok)
  }

  /** flushLocked. */
  function Flush(c: Config, s: State, f: Fates): (State, Status)
    requires c.sparse ==> s.dimension.Some?
  {
    if s.buffer == [] then (s, Ok)
    else
      var (s1, status) := Ensure(c, Settle(c, s), f);
      if status != Ok then (s1, status) else Insert(s1, f)
  }

  /** Add. */
  function Add(c: Config, s: State, v: Vector, f: Fates): (State, Status)
    requires c.sparse ==> s.dimension.Some?
  {
    if !Acceptable(c, v) then (s, Ok)
    else
      var s1 := s.(buffer := s.buffer + [v], accepted := s.accepted + [v]);
      if |s1.buffer| >= c.batchSize then Flush(c, s1, f) else (s1, Ok)
  }

  function Recent(s: seq<Vector>, timestamp: int): seq<Vector> {
    if s == [] then []
    else Recent(s[..|s| - 1], timestamp) + (if s[|s| - 1].timestamp >= timestamp then [s[|s| - 1]] else [])
  }

  /** Clean. Without a database it dereferences nil once the buffer is empty. */
  function Clean(c: Config, s: State, f: Fates): (State, Status)
    requires c.sparse ==> s.dimension.Some?
  {
    var (s1, flushed) := Flush(c, s, f);
    if flushed != Ok then (s1, flushed)
    else if s1.store.NoStore? then (s1, Panic)
    else if s1.store.collection.None? then (s1, Ok)
    else if f.purgeFails then (s1, Error)
    else
      var purged := s1.(store := s1.store.(vectors := Recent(s1.store.vectors, c.timestamp)));
      (purged, if f.optimizeFails then Error else Ok)
  }

  datatype Operation = AddOp(vector: Vector, fates: Fates) | CleanOp(fates: Fates)

  function Step(c: Config, s: State, op: Operation): (State, Status)
    requires c.sparse ==> s.dimension.Some?
  {
    match op
    case AddOp(v, f) => Add(c, s, v, f)
    case CleanOp(f) => Clean(c, s, f)
  }

  // ------------------------------------------------------------------
  // Invariants
  // ------------------------------------------------------------------

  function Vectors(ds: seq<Delivery>): (r: seq<Vector>)
    ensures |r| == |ds|
  {
    seq(|ds|, i requires 0 <= i < |ds| => ds[i].vector)
  }

  /** Every accepted vector is delivered, dropped or buffered, and in each of the
      three logs the order of acceptance is kept. */
  predicate Accounted(c: Config, s: State) {
    if c.sparse then s.dropped == [] && s.accepted == Vectors(s.delivered) + s.buffer
    else if s.dimension.None? then s.dropped == [] && s.delivered == [] && s.accepted == s.buffer
    else
      var d := s.dimension.value;
      && Fitting(s.accepted, d) == Vectors(s.delivered) + Fitting(s.buffer, d)
      && Misfits(s.accepted, d) == s.dropped + Misfits(s.buffer, d)
  }

  /** All deliveries went into one collection shape, of the writer's dimension. */
  predicate Uniform(c: Config, s: State) {
    && (s.ensured || s.delivered != [] ==>
          s.ensured && s.dimension.Some? && s.store.Store? && s.store.collection == Some(Wanted(c, s.dimension.value)))
    && forall i :: 0 <= i < |s.delivered| ==>
         && s.delivered[i].info == Wanted(c, s.dimension.value)
         && (!c.sparse ==> Len(s.delivered[i].vector) == s.dimension.value)
         && (c.sparse ==> Acceptable(c, s.delivered[i].vector))
  }

  /** No delivered vector disappears, except by the purge of old ones. */
  predicate Stored(c: Config, s: State) {
    forall i :: 0 <= i < |s.delivered| && s.delivered[i].vector.timestamp >= c.timestamp ==>
      s.store.Store? && s.delivered[i].vector in s.store.vectors
  }

  predicate Inv(c: Config, s: State) {
    && (c.sparse ==> s.dimension == Some(0))
    && (forall i :: 0 <= i < |s.accepted| ==> Acceptable(c, s.accepted[i]))
    && (forall i :: 0 <= i < |s.buffer| ==> Acceptable(c, s.buffer[i]))
    && Accounted(c, s) && Uniform(c, s) && Stored(c, s)
  }

  lemma AppendOne(s: seq<Vector>, v: Vector, d: nat)
    ensures Fitting(s + [v], d) == Fitting(s, d) + (if Len(v) == d then [v] else [])
    ensures Misfits(s + [v], d) == Misfits(s, d) + (if Len(v) != d then [v] else [])
  {
    assert (s + [v])[..|s|] == s;
  }

  lemma {:induction false} FittingFits(s: seq<Vector>, d: nat)
    ensures Fitting(Fitting(s, d), d) == Fitting(s, d)
    ensures Misfits(Fitting(s, d), d) == []
    ensures forall i :: 0 <= i < |Fitting(s, d)| ==> Len(Fitting(s, d)[i]) == d && Fitting(s, d)[i] in s
  {
    if s != [] {
      var front, last := s[..|s| - 1], s[|s| - 1];
      FittingFits(front, d);
      if Len(last) == d {
        AppendOne(Fitting(front, d), last, d);
      } else {
        assert Fitting(s, d) == Fitting(front, d);
      }
    }
  }

  lemma AppendToParts<T>(a: seq<T>, b: seq<T>, c: seq<T>, x: T)
    requires multiset(a) == multiset(b) + multiset(c)
    ensures multiset(a + [x]) == multiset(b + [x]) + multiset(c)
    ensures multiset(a + [x]) == multiset(b) + multiset(c + [x])
  {
  }

  lemma {:induction false} FittingPartitions(s: seq<Vector>, d: nat)
    ensures multiset(s) == multiset(Fitting(s, d)) + multiset(Misfits(s, d))
  {
    if s != [] {
      var front, last := s[..|s| - 1], s[|s| - 1];
      assert s == front + [last];
      FittingPartitions(front, d);
      AppendToParts(front, Fitting(front, d), Misfits(front, d), last);
      AppendOne(front, last, d);
    }
  }

  lemma SettleKeeps(c: Config, s: State)
    requires Inv(c, s) && s.buffer != []
    ensures Inv(c, Settle(c, s)) && Settle(c, s).dimension.Some?
    ensures !c.sparse ==> forall i :: 0 <= i < |Settle(c, s).buffer| ==>
              Len(Settle(c, s).buffer[i]) == ChosenDimension(s)
  {
    if !c.sparse {
      var d := ChosenDimension(s);
      FittingFits(s.buffer, d);
      var s' := Settle(c, s);
      assert s'.dropped + [] == s'.dropped;
      assert Vectors(s'.delivered) == Vectors(s.delivered);
      if s.dimension.None? {
        assert Vectors(s.delivered) + Fitting(s.buffer, d) == Fitting(s.buffer, d);
        assert [] + Misfits(s.buffer, d) == Misfits(s.buffer, d);
      }
    }
  }

  lemma EnsureKeeps(c: Config, s: State, f: Fates)
    requires Inv(c, s) && s.dimension.Some?
    ensures var (s', r) := Ensure(c, s, f);
      && Inv(c, s') && s'.buffer == s.buffer && s'.dimension == s.dimension
      && (r == Ok ==> s'.ensured)
  {
    var (s', r) := Ensure(c, s, f);
    assert Vectors(s'.delivered) == Vectors(s.delivered);
  }

  lemma InsertKeeps(c: Config, s: State, f: Fates)
    requires Inv(c, s) && s.ensured
    requires !c.sparse ==> forall i :: 0 <= i < |s.buffer| ==> Len(s.buffer[i]) == s.dimension.value
    ensures Inv(c, Insert(s, f).0)
  {
    if Insert(s, f).1 == Ok {
      InsertAccounted(c, s, f);
      InsertUniform(c, s, f);
      InsertStored(c, s, f);
    }
  }

  lemma InsertAccounted(c: Config, s: State, f: Fates)
    requires Inv(c, s) && Insert(s, f).1 == Ok && s.dimension.Some?
    requires !c.sparse ==> forall i :: 0 <= i < |s.buffer| ==> Len(s.buffer[i]) == s.dimension.value
    ensures Accounted(c, Insert(s, f).0)
  {
    var s' := Insert(s, f).0;
    assert Vectors(s'.delivered) == Vectors(s.delivered) + s.buffer;
    assert Vectors(s'.delivered) + [] == Vectors(s'.delivered);
    if !c.sparse {
      AllFit(s.buffer, s.dimension.value);
      assert s'.dropped + [] == s'.dropped && s.dropped + [] == s.dropped;
    }
  }

  lemma InsertUniform(c: Config, s: State, f: Fates)
    requires Inv(c, s) && s.ensured && Insert(s, f).1 == Ok
    requires !c.sparse ==> forall i :: 0 <= i < |s.buffer| ==> Len(s.buffer[i]) == s.dimension.value
    ensures Uniform(c, Insert(s, f).0)
  {
  }

  lemma InsertStored(c: Config, s: State, f: Fates)
    requires Inv(c, s) && Insert(s, f).1 == Ok
    ensures Stored(c, Insert(s, f).0)
  {
  }

  lemma {:induction false} AllFit(s: seq<Vector>, d: nat)
    requires forall i :: 0 <= i < |s| ==> Len(s[i]) == d
    ensures Fitting(s, d) == s && Misfits(s, d) == []
  {
    if s != [] {
      AllFit(s[..|s| - 1], d);
      assert s == s[..|s| - 1] + [s[|s| - 1]];
    }
  }

  lemma FlushKeeps(c: Config, s: State, f: Fates)
    requires Inv(c, s)
    ensures var (s', r) := Flush(c, s, f);
      && Inv(c, s') && s'.accepted == s.accepted && (r == Ok ==> s'.buffer == [])
      && (s.dimension.Some? ==> s'.dimension == s.dimension)
  {
    if s.buffer != [] {
      SettleKeeps(c, s);
      EnsureKeeps(c, Settle(c, s), f);
      var (s1, status) := Ensure(c, Settle(c, s), f);
      if status == Ok {
        InsertKeeps(c, s1, f);
      }
    }
  }

  lemma AcceptKeeps(c: Config, s: State, v: Vector)
    requires Inv(c, s) && Acceptable(c, v)
    ensures Inv(c, s.(buffer := s.buffer + [v], accepted := s.accepted + [v]))
  {
    AcceptAccounted(c, s, v);
  }

  lemma AcceptAccounted(c: Config, s: State, v: Vector)
    requires Accounted(c, s)
    ensures Accounted(c, s.(buffer := s.buffer + [v], accepted := s.accepted + [v]))
  {
    if c.sparse || s.dimension.None? {
      AppendBoth(s.accepted, Vectors(s.delivered), s.buffer, [v]);
    } else {
      var d := s.dimension.value;
      AppendOne(s.accepted, v, d);
      AppendOne(s.buffer, v, d);
      AppendBoth(Fitting(s.accepted, d), Vectors(s.delivered), Fitting(s.buffer, d), if Len(v) == d then [v] else []);
      AppendBoth(Misfits(s.accepted, d), s.dropped, Misfits(s.buffer, d), if Len(v) != d then [v] else []);
    }
  }

  lemma AppendBoth<T>(a: seq<T>, b: seq<T>, c: seq<T>, more: seq<T>)
    requires a == b + c
    ensures a + more == b + (c + more)
  {
  }

  lemma {:induction false} RecentKeepsRecent(s: seq<Vector>, timestamp: int)
    ensures forall v :: v in s && v.timestamp >= timestamp ==> v in Recent(s, timestamp)
  {
    if s != [] {
      RecentKeepsRecent(s[..|s| - 1], timestamp);
      assert s == s[..|s| - 1] + [s[|s| - 1]];
    }
  }

  lemma {:induction false} RecentIsRecent(s: seq<Vector>, timestamp: int)
    ensures forall v :: v in Recent(s, timestamp) ==> v in s && v.timestamp >= timestamp
  {
    if s != [] {
      RecentIsRecent(s[..|s| - 1], timestamp);
    }
  }

  lemma AddKeeps(c: Config, s: State, v: Vector, f: Fates)
    requires Inv(c, s)
    ensures Inv(c, Add(c, s, v, f).0)
    ensures s.dimension.Some? ==> Add(c, s, v, f).0.dimension == s.dimension
  {
    if Acceptable(c, v) {
      AcceptKeeps(c, s, v);
      FlushKeeps(c, s.(buffer := s.buffer + [v], accepted := s.accepted + [v]), f);
    }
  }

  lemma PurgeKeeps(c: Config, s: State)
    requires Inv(c, s) && s.store.Store?
    ensures Inv(c, s.(store := s.store.(vectors := Recent(s.store.vectors, c.timestamp))))
  {
    RecentKeepsRecent(s.store.vectors, c.timestamp);
    assert Vectors(s.(store := s.store.(vectors := Recent(s.store.vectors, c.timestamp))).delivered)
        == Vectors(s.delivered);
  }

  lemma CleanKeeps(c: Config, s: State, f: Fates)
    requires Inv(c, s)
    ensures Inv(c, Clean(c, s, f).0)
    ensures s.dimension.Some? ==> Clean(c, s, f).0.dimension == s.dimension
  {
    FlushKeeps(c, s, f);
    var (s1, _) := Flush(c, s, f);
    if s1.store.Store? {
      PurgeKeeps(c, s1);
    }
  }

  /** Every operation, under every pattern of failing database calls, keeps the
      invariant and a dimension once it is settled. */
  lemma StepKeeps(c: Config, s: State, op: Operation)
    requires Inv(c, s)
    ensures Inv(c, Step(c, s, op).0)
    ensures s.dimension.Some? ==> Step(c, s, op).0.dimension == s.dimension
  {
    match op {
      case AddOp(v, f) => AddKeeps(c, s, v, f);
      case CleanOp(f) => CleanKeeps(c, s, f);
    }
  }

  /** The state after a sequence of operations. */
  function Run(c: Config, s: State, ops: seq<Operation>): (r: State)
    requires Inv(c, s)
    ensures Inv(c, r)
    decreases |ops|
  {
    if ops == [] then s
    else
      StepKeeps(c, s, ops[0]);
      Run(c, Step(c, s, ops[0]).0, ops[1..])
  }

  lemma InitInv(c: Config, store: Store)
    ensures Inv(c, Init(c, store))
  {
  }

  /** Over any run every accepted vector is delivered, dropped or still buffered,
      exactly once. */
  lemma RunConserves(c: Config, store: Store, ops: seq<Operation>)
    ensures Inv(c, Init(c, store))
    ensures var s := Run(c, Init(c, store), ops);
      multiset(s.accepted) == multiset(Vectors(s.delivered)) + multiset(s.dropped) + multiset(s.buffer)
  {
    InitInv(c, store);
    var s := Run(c, Init(c, store), ops);
    if !c.sparse && s.dimension.Some? {
      FittingPartitions(s.accepted, s.dimension.value);
      FittingPartitions(s.buffer, s.dimension.value);
    }
  }

  /** What has been delivered, followed by what is buffered, are the accepted vectors
      of the writer's dimension in the order in which they were accepted; until
      there is a dimension everything is buffered. */
  lemma RunDeliversInOrder(c: Config, store: Store, ops: seq<Operation>)
    ensures Inv(c, Init(c, store))
    ensures var s := Run(c, Init(c, store), ops);
      && (c.sparse ==> Vectors(s.delivered) + s.buffer == s.accepted)
      && (!c.sparse && s.dimension.None? ==> s.delivered == [] && s.buffer == s.accepted)
      && (!c.sparse && s.dimension.Some? ==>
            var d := s.dimension.value;
            && Vectors(s.delivered) + Fitting(s.buffer, d) == Fitting(s.accepted, d)
            && s.dropped + Misfits(s.buffer, d) == Misfits(s.accepted, d))
  {
    InitInv(c, store);
  }

  /** Over any run, all deliveries share one collection with one dimension; a
      dense writer delivers only vectors of that length, a sparse writer only
      vectors with equally many, and at least one, indices and values; and what
      was delivered is still in the collection unless it is older than the
      writer's timestamp. */
  lemma RunDeliversUniformly(c: Config, store: Store, ops: seq<Operation>)
    ensures Inv(c, Init(c, store))
    ensures var s := Run(c, Init(c, store), ops);
      forall i :: 0 <= i < |s.delivered| ==>
        && s.store.Store? && s.dimension.Some?
        && s.store.collection == Some(s.delivered[i].info)
        && s.delivered[i].info == Info(s.dimension.value, c.distance, c.quantization, c.bits)
        && (!c.sparse ==> Len(s.delivered[i].vector) == s.dimension.value)
        && (c.sparse ==> var v := s.delivered[i].vector;
              s.dimension.value == 0 && |v.hvalues| == 0 && |v.indices| == |v.values| > 0)
        && (s.delivered[i].vector.timestamp >= c.timestamp ==> s.delivered[i].vector in s.store.vectors)
  {
    InitInv(c, store);
  }

  /** `d` is a most frequent length of `s`, and the first vector that has it
      comes before every vector of an equally frequent other length. */
  ghost predicate IsEarliestMode(s: seq<Vector>, d: nat) {
    && (forall i :: 0 <= i < |s| ==> Count(s, Len(s[i])) <= Count(s, d))
    && (exists k :: 0 <= k < |s| && Len(s[k]) == d
          && forall j :: 0 <= j < k ==> Count(s, Len(s[j])) < Count(s, d))
  }

  lemma {:induction false} LeaderIsMode(s: seq<Vector>, n: nat)
    requires 0 < |s| && n <= |s|
    ensures forall i :: 0 <= i < n ==> Count(s, Len(s[i])) <= Count(s, Leader(s, n))
    ensures exists k :: 0 <= k < (if n == 0 then 1 else n) && Len(s[k]) == Leader(s, n)
              && forall j :: 0 <= j < k ==> Count(s, Len(s[j])) < Count(s, Leader(s, n))
  {
    if n == 0 {
      assert Len(s[0]) == Leader(s, n);
    } else {
      LeaderIsMode(s, n - 1);
      if Leader(s, n) != Leader(s, n - 1) {
        assert Len(s[n - 1]) == Leader(s, n);
      }
    }
  }

  /** A dense writer settles on the earliest of the most frequent lengths of the
      first buffer it flushes, even when that flush fails, and keeps it. */
  lemma FirstFlushChoosesMode(c: Config, s: State, f: Fates)
    requires Inv(c, s) && !c.sparse && s.dimension.None? && s.buffer != []
    ensures var s' := Flush(c, s, f).0;
      s'.dimension.Some? && IsEarliestMode(s.accepted, s'.dimension.value)
  {
    LeaderIsMode(s.buffer, |s.buffer|);
    SettleKeeps(c, s);
    EnsureKeeps(c, Settle(c, s), f);
  }

  lemma {:induction false} RunKeepsDimension(c: Config, s: State, ops: seq<Operation>)
    requires Inv(c, s) && s.dimension.Some?
    ensures Run(c, s, ops).dimension == s.dimension
    decreases |ops|
  {
    if ops != [] {
      StepKeeps(c, s, ops[0]);
      RunKeepsDimension(c, Step(c, s, ops[0]).0, ops[1..]);
    }
  }

  /** A chosen dimension is the earliest mode of what was accepted up to some point. */
  ghost predicate HasMode(c: Config, s: State) {
    !c.sparse && s.dimension.Some? ==>
      exists k :: 0 <= k <= |s.accepted| && IsEarliestMode(s.accepted[..k], s.dimension.value)
  }

  lemma ModeStays(c: Config, s: State, s': State)
    requires HasMode(c, s) && s.accepted <= s'.accepted && s'.dimension == s.dimension
    ensures HasMode(c, s')
  {
    if !c.sparse && s.dimension.Some? {
      var k :| 0 <= k <= |s.accepted| && IsEarliestMode(s.accepted[..k], s.dimension.value);
      assert s'.accepted[..k] == s.accepted[..k];
    }
  }

  lemma FlushKeepsMode(c: Config, s: State, f: Fates)
    requires Inv(c, s) && HasMode(c, s)
    ensures HasMode(c, Flush(c, s, f).0)
  {
    FlushKeeps(c, s, f);
    var s' := Flush(c, s, f).0;
    if c.sparse || s.dimension.Some? || s.buffer == [] {
      ModeStays(c, s, s');
    } else {
      FirstFlushChoosesMode(c, s, f);
      assert s'.accepted[..|s.accepted|] == s.accepted;
    }
  }

  lemma StepKeepsMode(c: Config, s: State, op: Operation)
    requires Inv(c, s) && HasMode(c, s)
    ensures HasMode(c, Step(c, s, op).0)
  {
    match op {
      case AddOp(v, f) =>
        if Acceptable(c, v) {
          var s1 := s.(buffer := s.buffer + [v], accepted := s.accepted + [v]);
          AcceptKeeps(c, s, v);
          ModeStays(c, s, s1);
          FlushKeepsMode(c, s1, f);
        }
      case CleanOp(f) =>
        FlushKeepsMode(c, s, f);
        ModeStays(c, Flush(c, s, f).0, Clean(c, s, f).0);
    }
  }

  lemma {:induction false} RunKeepsMode(c: Config, s: State, ops: seq<Operation>)
    requires Inv(c, s) && HasMode(c, s)
    ensures HasMode(c, Run(c, s, ops))
    decreases |ops|
  {
    if ops != [] {
      StepKeeps(c, s, ops[0]);
      StepKeepsMode(c, s, ops[0]);
      RunKeepsMode(c, Step(c, s, ops[0]).0, ops[1..]);
    }
  }

  /** In every run the dimension of a dense writer is, once there is one, a most
      frequent length of the vectors accepted before its first flush, with ties going
      to the earliest. */
  lemma RunChoosesMode(c: Config, store: Store, ops: seq<Operation>)
    ensures Inv(c, Init(c, store))
    ensures HasMode(c, Run(c, Init(c, store), ops))
  {
    InitInv(c, store);
    RunKeepsMode(c, Init(c, store), ops);
  }

  /** After an Add that reports no error the buffer is below the batch size
      exactly if the vector was accepted or the buffer was below it before: a
      rejected vector returns early and leaves a buffer that an earlier failed
      flush has filled. */
  lemma BufferBound(c: Config, s: State, v: Vector, f: Fates)
    requires Inv(c, s) && c.batchSize > 0 && Add(c, s, v, f).1 == Ok
    ensures |Add(c, s, v, f).0.buffer| < c.batchSize <==> Acceptable(c, v) || |s.buffer| < c.batchSize
  {
    if Acceptable(c, v) {
      AcceptKeeps(c, s, v);
      FlushKeeps(c, s.(buffer := s.buffer + [v], accepted := s.accepted + [v]), f);
    }
  }

  /** One failed flush followed by a rejected vector leaves a full buffer although
      the second Add reports no error. */
  lemma FullBufferAfterRejectedAdd()
    ensures var c := Config(0, "", 0, 0, 1, false);
      var good := Vector("a", [1.0], [], [], 0);
      var bad := Vector("b", [], [], [], 0);
      var broken := Fates(true, Done, false, false, false, false);
      var s1 := Add(c, Init(c, Store(None, [])), good, broken);
      var s2 := Add(c, s1.0, bad, broken);
      s1.1 == Error && s2.1 == Ok && |s2.0.buffer| == c.batchSize
  {
    var c := Config(0, "", 0, 0, 1, false);
    var good := Vector("a", [1.0], [], [], 0);
    var s := Init(c, Store(None, []));
    var s1 := s.(buffer := s.buffer + [good], accepted := s.accepted + [good]);
    assert s1.buffer == [good];
    AllFit([good], 1);
    assert Leader([good], 0) == 1;
    assert Leader([good], 1) == 1;
    assert Settle(c, s1).buffer == [good];
  }

  predicate Healthy(f: Fates) {
    !f.describeFails && !f.remove.Broken? && !f.createFails && !f.insertFails && !f.purgeFails && !f.optimizeFails
  }

  lemma HealthyFlushEmptiesBuffer(c: Config, s: State, f: Fates)
    requires Inv(c, s) && s.store.Store? && Healthy(f)
    ensures var (s', r) := Flush(c, s, f);
      r == Ok && s'.buffer == [] && (s.accepted != [] && !c.sparse ==> s'.dimension.Some?) && s'.store.Store?
  {
    if s.buffer != [] {
      SettleKeeps(c, s);
      EnsureKeeps(c, Settle(c, s), f);
    }
  }

  /** A Clean whose calls all succeed delivers every accepted vector of the writer's
      dimension that earlier failures had left behind, and leaves nothing older
      than the writer's timestamp in the collection. */
  lemma HealthyCleanDeliversAll(c: Config, s: State, f: Fates)
    requires Inv(c, s) && s.store.Store? && Healthy(f)
    ensures var (s', r) := Clean(c, s, f);
      && r == Ok && s'.buffer == []
      && (c.sparse ==> Vectors(s'.delivered) == s.accepted)
      && (!c.sparse && s.accepted != [] ==>
            s'.dimension.Some? && Vectors(s'.delivered) == Fitting(s.accepted, s'.dimension.value))
      && s'.store.Store?
      && (s'.store.collection.Some? ==> forall v :: v in s'.store.vectors ==> v.timestamp >= c.timestamp)
  {
    FlushKeeps(c, s, f);
    HealthyFlushEmptiesBuffer(c, s, f);
    var s1 := Flush(c, s, f).0;
    RecentIsRecent(s1.store.vectors, c.timestamp);
    assert Vectors(s1.delivered) + [] == Vectors(s1.delivered);
  }

  /** Add takes a vector if and only if it suits the writer: for a sparse writer it
      has no half-precision values and equally many indices and values, at least
      one; for a dense one it has half-precision values, or values and no indices.
      The buffer is flushed exactly when the vector fills a batch. A refused vector
      changes nothing. */
  lemma AddTakesIffSuitable(c: Config, s: State, v: Vector, f: Fates)
    requires Inv(c, s)
    ensures var (s', r) := Add(c, s, v, f);
      var taken := s.(buffer := s.buffer + [v], accepted := s.accepted + [v]);
      var suitable := if c.sparse then |v.hvalues| == 0 && |v.indices| == |v.values| > 0
                      else |v.hvalues| > 0 || (|v.indices| == 0 && |v.values| > 0);
      && (s'.accepted == s.accepted + [v] <==> suitable)
      && (!suitable ==> s' == s && r == Ok)
      && (suitable && |s.buffer| + 1 < c.batchSize ==> s' == taken && r == Ok)
      && (suitable && |s.buffer| + 1 >= c.batchSize ==>
            (s', r) == Flush(c, taken, f) && (r == Ok ==> s'.buffer == []))
  {
    if Acceptable(c, v) {
      AcceptKeeps(c, s, v);
      FlushKeeps(c, s.(buffer := s.buffer + [v], accepted := s.accepted + [v]), f);
    } else {
      assert |s.accepted + [v]| == |s.accepted| + 1;
    }
  }

  /** The vectors of the Add calls among `ops` that suit the writer, in order. */
  function Suitable(c: Config, ops: seq<Operation>): seq<Vector> {
    if ops == [] then []
    else
      var first :=
        match ops[0]
        case AddOp(v, _) =>
          var suits := if c.sparse then |v.hvalues| == 0 && |v.indices| == |v.values| != 0
                       else if |v.indices| == 0 then |v.hvalues| + |v.values| != 0 else |v.hvalues| != 0;
          if suits then [v] else []
        case CleanOp(_) => [];
      first + Suitable(c, ops[1..])
  }

  lemma AddAccepts(c: Config, s: State, v: Vector, f: Fates)
    requires Inv(c, s)
    ensures Add(c, s, v, f).0.accepted == s.accepted + Suitable(c, [AddOp(v, f)])
  {
    AddTakesIffSuitable(c, s, v, f);
    assert [AddOp(v, f)][1..] == [] && Suitable(c, []) == [];
  }

  lemma CleanAccepts(c: Config, s: State, f: Fates)
    requires Inv(c, s)
    ensures Clean(c, s, f).0.accepted == s.accepted + Suitable(c, [CleanOp(f)])
  {
    FlushKeeps(c, s, f);
    assert [CleanOp(f)][1..] == [] && Suitable(c, []) == [];
  }

  lemma StepAccepts(c: Config, s: State, op: Operation)
    requires Inv(c, s)
    ensures Step(c, s, op).0.accepted == s.accepted + Suitable(c, [op])
  {
    match op {
      case AddOp(v, f) => AddAccepts(c, s, v, f);
      case CleanOp(f) => CleanAccepts(c, s, f);
    }
  }

  lemma SuitableFirst(c: Config, ops: seq<Operation>)
    requires ops != []
    ensures Suitable(c, ops) == Suitable(c, [ops[0]]) + Suitable(c, ops[1..])
  {
    assert [ops[0]][1..] == [] && Suitable(c, []) == [];
  }

  lemma {:induction false} RunAcceptsSuitable(c: Config, s: State, ops: seq<Operation>)
    requires Inv(c, s)
    ensures Run(c, s, ops).accepted == s.accepted + Suitable(c, ops)
    decreases |ops|
  {
    if ops != [] {
      StepKeeps(c, s, ops[0]);
      StepAccepts(c, s, ops[0]);
      SuitableFirst(c, ops);
      RunAcceptsSuitable(c, Step(c, s, ops[0]).0, ops[1..]);
      AppendBoth(s.accepted + Suitable(c, [ops[0]]), s.accepted, Suitable(c, [ops[0]]), Suitable(c, ops[1..]));
    }
  }

  /** After a run that ends in a Clean without failures, a sparse writer has delivered
      every suitable vector it was given, once and in order; a dense writer those of
      its dimension, the earliest most frequent length of some first part of them. */
  lemma RunDeliversEverySuitable(c: Config, store: Store, ops: seq<Operation>, f: Fates)
    requires store.Store? && Healthy(f)
    ensures Inv(c, Init(c, store)) && Inv(c, Run(c, Init(c, store), ops))
    ensures var (s, r) := Clean(c, Run(c, Init(c, store), ops), f);
      var given := Suitable(c, ops);
      && r == Ok
      && (c.sparse ==> Vectors(s.delivered) == given)
      && (!c.sparse && given != [] ==>
            s.dimension.Some? && HasMode(c, s) && Vectors(s.delivered) == Fitting(given, s.dimension.value))
  {
    InitInv(c, store);
    RunKeepsStore(c, Init(c, store), ops);
    RunAcceptsSuitable(c, Init(c, store), ops);
    var s := Run(c, Init(c, store), ops);
    assert s.accepted == Suitable(c, ops);
    RunChoosesMode(c, store, ops);
    StepKeepsMode(c, s, CleanOp(f));
    FlushKeeps(c, s, f);
    HealthyCleanDeliversAll(c, s, f);
  }

  lemma FlushKeepsStore(c: Config, s: State, f: Fates)
    requires Inv(c, s) && s.store.Store?
    ensures Flush(c, s, f).0.store.Store?
  {
    if s.buffer != [] {
      SettleKeeps(c, s);
      EnsureKeeps(c, Settle(c, s), f);
    }
  }

  lemma StepKeepsStore(c: Config, s: State, op: Operation)
    requires Inv(c, s) && s.store.Store?
    ensures Step(c, s, op).0.store.Store?
  {
    match op {
      case AddOp(v, f) =>
        if Acceptable(c, v) {
          AcceptKeeps(c, s, v);
          FlushKeepsStore(c, s.(buffer := s.buffer + [v], accepted := s.accepted + [v]), f);
        }
      case CleanOp(f) =>
        FlushKeepsStore(c, s, f);
    }
  }

  lemma {:induction false} RunKeepsStore(c: Config, s: State, ops: seq<Operation>)
    requires Inv(c, s) && s.store.Store?
    ensures Run(c, s, ops).store.Store?
    decreases |ops|
  {
    if ops != [] {
      StepKeeps(c, s, ops[0]);
      StepKeepsStore(c, s, ops[0]);
      RunKeepsStore(c, Step(c, s, ops[0]).0, ops[1..]);
    }
  }

  /** Fitting keeps exactly the vectors whose length, that of the half-precision
      values if there are any, is `d`, each as often; Count is their number. */
  lemma {:induction false} FittingIsFilter(s: seq<Vector>, d: nat, v: Vector)
    ensures multiset(Fitting(s, d))[v]
         == (if (if |v.hvalues| > 0 then |v.hvalues| else |v.values|) == d then multiset(s)[v] else 0)
    ensures |Fitting(s, d)| == Count(s, d)
  {
    if s != [] {
      var front, last := s[..|s| - 1], s[|s| - 1];
      assert s == front + [last];
      FittingIsFilter(front, d, v);
    }
  }

  /** It keeps them in order. */
  lemma {:induction false} FittingInOrder(s: seq<Vector>, d: nat) returns (at: seq<nat>)
    ensures Picks(Fitting(s, d), s, at)
    ensures forall p: nat :: p < |s| ==>
      (p in at <==> (if |s[p].hvalues| > 0 then |s[p].hvalues| else |s[p].values|) == d)
  {
    if s == [] {
      at := [];
    } else {
      var n := |s| - 1;
      assert s == s[..n] + [s[n]];
      at := FittingInOrder(s[..n], d);
      if Len(s[n]) == d {
        at := at + [n];
      }
    }
  }

  /** As long as the collection found at the start suits the writer's dimension, or
      there is no dimension yet, the collection is not replaced. */
  predicate KeepsMatching(c: Config, found: Store, s: State)
    requires found.Store? && found.collection.Some?
  {
    && s.store.Store?
    && (s.dimension.None? || found.collection.value == Info(s.dimension.value, c.distance, c.quantization, c.bits) ==>
          && s.store.collection == found.collection
          && forall v :: v in found.vectors && v.timestamp >= c.timestamp ==> v in s.store.vectors)
  }

  lemma EnsureKeepsMatching(c: Config, found: Store, s: State, f: Fates)
    requires found.Store? && found.collection.Some? && s.dimension.Some? && KeepsMatching(c, found, s)
    ensures KeepsMatching(c, found, Ensure(c, s, f).0)
  {
  }

  lemma FlushKeepsMatching(c: Config, found: Store, s: State, f: Fates)
    requires found.Store? && found.collection.Some? && Inv(c, s) && KeepsMatching(c, found, s)
    ensures KeepsMatching(c, found, Flush(c, s, f).0)
  {
    if s.buffer != [] {
      SettleKeeps(c, s);
      EnsureKeepsMatching(c, found, Settle(c, s), f);
    }
  }

  lemma StepKeepsMatching(c: Config, found: Store, s: State, op: Operation)
    requires found.Store? && found.collection.Some? && Inv(c, s) && KeepsMatching(c, found, s)
    ensures KeepsMatching(c, found, Step(c, s, op).0)
  {
    match op {
      case AddOp(v, f) =>
        if Acceptable(c, v) {
          AcceptKeeps(c, s, v);
          FlushKeepsMatching(c, found, s.(buffer := s.buffer + [v], accepted := s.accepted + [v]), f);
        }
      case CleanOp(f) =>
        FlushKeepsMatching(c, found, s, f);
        RecentKeepsRecent(Flush(c, s, f).0.store.vectors, c.timestamp);
    }
  }

  lemma {:induction false} RunKeepsMatching(c: Config, found: Store, s: State, ops: seq<Operation>)
    requires found.Store? && found.collection.Some? && Inv(c, s) && KeepsMatching(c, found, s)
    ensures KeepsMatching(c, found, Run(c, s, ops))
    decreases |ops|
  {
    if ops != [] {
      StepKeeps(c, s, ops[0]);
      StepKeepsMatching(c, found, s, ops[0]);
      RunKeepsMatching(c, found, Step(c, s, ops[0]).0, ops[1..]);
    }
  }

  /** A collection of the right dimension, distance and quantization is reused: in every
      run it stays, with all vectors that are not older than the writer. */
  lemma MatchingCollectionStays(c: Config, found: Store, ops: seq<Operation>)
    requires found.Store? && found.collection.Some?
    ensures Inv(c, Init(c, found))
    ensures var s := Run(c, Init(c, found), ops);
      s.dimension.None? || found.collection == Some(Info(s.dimension.value, c.distance, c.quantization, c.bits)) ==>
        && s.store.Store? && s.store.collection == found.collection
        && forall v :: v in found.vectors && v.timestamp >= c.timestamp ==> v in s.store.vectors
  {
    InitInv(c, found);
    RunKeepsMatching(c, found, Init(c, found), ops);
  }

  // ------------------------------------------------------------------
  // The implementation
  // ------------------------------------------------------------------

  /** The counting loops of flushLocked. */
  method CommonestLength(a: array<Vector>, n: nat) returns (dimension: nat)
    requires 0 < n <= a.Length
    ensures dimension == Leader(a[..n], n)
  {
    var counts: map<nat, nat> := map[];
    for i := 0 to n
      invariant forall d :: d in counts ==> counts[d] == Count(a[..i], d)
      invariant forall d :: d !in counts ==> Count(a[..i], d) == 0
      invariant forall j :: 0 <= j < i ==> Len(a[j]) in counts
    {
      var d := Len(a[i]);
      assert a[..i + 1][..i] == a[..i];
      counts := counts[d := (if d in counts then counts[d] else 0) + 1];
    }
    dimension := Len(a[0]);
    for i := 0 to n
      invariant dimension == Leader(a[..n], i) && dimension in counts
    {
      var candidate := Len(a[i]);
      if counts[candidate] > counts[dimension] {
        dimension := candidate;
      }
    }
  }

  /** The in-place filter: the kept vectors are moved to the front of the array
      that is being read. */
  method Compact(a: array<Vector>, n: nat, d: nat) returns (m: nat)
    requires n <= a.Length
    modifies a
    ensures m <= n && a[..m] == Fitting(old(a[..n]), d)
  {
    m := 0;
    for i := 0 to n
      invariant m <= i && a[..m] == Fitting(old(a[..i]), d)
      invariant forall j :: i <= j < n ==> a[j] == old(a[j])
    {
      assert old(a[..i + 1])[..i] == old(a[..i]);
      if Len(a[i]) == d {
        ghost var kept := a[..m];
        a[m] := a[i];
        assert a[..m + 1] == kept + [a[m]];
        m := m + 1;
      }
    }
  }

  /** The database, for one collection. A call that fails changes nothing. */
  class Client {
    var collection: Option<Info>
    var vectors: seq<Vector>

    ghost function Contents(): Store
      reads this
    {
      Store(collection, vectors)
    }

    constructor (collection: Option<Info>, vectors: seq<Vector>)
      ensures Contents() == Store(collection, vectors)
    {
      this.collection, this.vectors := collection, vectors;
    }

    method DeleteCollection(fate: Removal) returns (ok: bool)
      modifies this
      ensures ok == !fate.Broken?
      ensures Contents() == if ok then Store(None, []) else old(Contents())
    {
      ok := !fate.Broken?;
      if ok {
        collection, vectors := None, [];
      }
    }

    method AddCollection(info: Info, fails: bool) returns (ok: bool)
      modifies this
      ensures ok == !fails
      ensures Contents() == if ok then Store(Some(info), []) else old(Contents())
    {
      ok := !fails;
      if ok {
        collection, vectors := Some(info), [];
      }
    }

    method AddVectors(vs: seq<Vector>, fails: bool) returns (ok: bool)
      modifies this
      ensures ok == (!fails && old(collection).Some?)
      ensures Contents() == if ok then Store(old(collection), old(vectors) + vs) else old(Contents())
    {
      ok := !fails && collection.Some?;
      if ok {
        vectors := vectors + vs;
      }
    }

    method DeleteVectors(timestamp: int, fails: bool) returns (ok: bool)
      modifies this
      ensures ok == !fails
      ensures Contents() == if ok then Store(old(collection), Recent(old(vectors), timestamp)) else old(Contents())
    {
      ok := !fails;
      if ok {
        ghost var all := vectors;
        var kept: seq<Vector> := [];
        for i := 0 to |vectors|
          invariant vectors == all && collection == old(collection)
          invariant kept == Recent(vectors[..i], timestamp)
        {
          assert vectors[..i + 1][..i] == vectors[..i];
          if vectors[i].timestamp >= timestamp {
            kept := kept + [vectors[i]];
          }
        }
        assert all[..|all|] == all;
        vectors := kept;
      }
    }
  }

  class SimilarityWriter {
    const config: Config
    const client: Client?
    var dimension: Option<nat>
    var collectionExists: bool
    var data: array<Vector>
    var len: nat
    ghost var accepted: seq<Vector>
    ghost var dropped: seq<Vector>
    ghost var delivered: seq<Delivery>

    ghost predicate Valid()
      reads this
    {
      len <= data.Length && (config.sparse ==> dimension.Some?)
    }

    ghost function Abs(): State
      requires Valid()
      reads this, client, data
    {
      State(if client == null then NoStore else client.Contents(), dimension, collectionExists, data[..len],
            accepted, dropped, delivered)
    }

    constructor (config: Config, client: Client?)
      ensures Valid() && fresh(data) && this.client == client && this.config == Effective(config)
      ensures this.config.batchSize == (if config.batchSize > 0 then config.batchSize else 1024)
      ensures this.config.quantization == (if config.sparse then "" else config.quantization)
      ensures this.config.bits == (if config.sparse then 0 else config.bits)
      ensures (this.config.sparse, this.config.distance, this.config.timestamp)
           == (config.sparse, config.distance, config.timestamp)
      ensures dimension == (if config.sparse then Some(0) else None) && !collectionExists && len == 0
      ensures Abs() == Init(this.config, if client == null then NoStore else client.Contents())
    {
      this.config := Effective(config);
      this.client := client;
      dimension := if config.sparse then Some(0) else None;
      collectionExists := false;
      data := new Vector[0];
      len := 0;
      accepted, dropped, delivered := [], [], [];
    }

    /** append(w.buffer, vector): reuses spare capacity, else moves the buffer. */
    method Append(v: Vector)
      requires Valid()
      modifies this`data, this`len, data
      ensures Valid() && (data == old(data) || fresh(data))
      ensures data[..len] == old(data[..len]) + [v]
    {
      if len == data.Length {
        var bigger := new Vector[2 * len + 1](_ => v);
        for i := 0 to len
          invariant len < bigger.Length && data == old(data) && len == old(len)
          invariant data[..] == old(data[..])
          invariant bigger[..i] == data[..i]
        {
          bigger[i] := data[i];
        }
        data := bigger;
      }
      assert data[..len] == old(data[..len]);
      data[len] := v;
      len := len + 1;
    }

    method AddVector(v: Vector, f: Fates) returns (r: Status)
      requires Valid()
      modifies this, client, data
      ensures Valid() && (data == old(data) || fresh(data))
      ensures (Abs(), r) == Add(config, old(Abs()), v, f)
    {
      if |v.hvalues| > 0 {
        if config.sparse {
          return Ok;
        }
      } else if config.sparse {
        if |v.indices| == 0 || |v.indices| != |v.values| {
          return Ok;
        }
      } else if |v.indices| != 0 || Len(v) == 0 {
        return Ok;
      }
      Append(v);
      accepted := accepted + [v];
      if len >= config.batchSize {
        r := FlushBuffer(f);
      } else {
        r := Ok;
      }
    }

    method CleanUp(f: Fates) returns (r: Status)
      requires Valid() && (client == null ==> len > 0)
      modifies this, client, data
      ensures Valid() && data == old(data)
      ensures (Abs(), r) == Clean(config, old(Abs()), f) && r != Panic
    {
      r := FlushBuffer(f);
      if r != Ok {
        return;
      }
      if client.collection.None? {
        return Ok;
      }
      var purged := client.DeleteVectors(config.timestamp, f.purgeFails);
      if !purged {
        return Error;
      }
      r := if f.optimizeFails then Error else Ok;
    }

    method EnsureCollection(f: Fates) returns (r: Status)
      requires Valid() && dimension.Some?
      modifies this`collectionExists, client
      ensures Valid()
      ensures (Abs(), r) == Ensure(config, old(Abs()), f)
    {
      if collectionExists {
        return Ok;
      }
      if client == null || f.describeFails {
        return Error;
      }
      var wanted := Wanted(config, dimension.value);
      if client.collection.Some? && client.collection.value != wanted {
        var deleted := client.DeleteCollection(f.remove);
        if !deleted {
          return Error;
        }
      }
      if client.collection.None? {
        var created := client.AddCollection(wanted, f.createFails);
        if !created {
          return Error;
        }
      }
      collectionExists := true;
      return Ok;
    }

    /** The dense branch of flushLocked. */
    method SettleDimension()
      requires Valid() && !config.sparse && len > 0
      modifies this`dimension, this`len, this`dropped, data
      ensures Valid() && dimension.Some?
      ensures Abs() == Settle(config, old(Abs()))
    {
      if dimension.None? {
        var d := CommonestLength(data, len);
        dimension := Some(d);
      }
      dropped := dropped + Misfits(data[..len], dimension.value);
      len := Compact(data, len, dimension.value);
    }

    method FlushBuffer(f: Fates) returns (r: Status)
      requires Valid()
      modifies this, client, data
      ensures Valid() && data == old(data)
      ensures (Abs(), r) == Flush(config, old(Abs()), f)
    {
      if len == 0 {
        return Ok;
      }
      if !config.sparse {
        SettleDimension();
      }
      r := EnsureCollection(f);
      if r != Ok {
        return;
      }
      if client == null {
        return Error;
      }
      var inserted := client.AddVectors(data[..len], f.insertFails);
      if !inserted {
        return Error;
      }
      delivered := delivered + Deliveries(client.collection.value, data[..len]);
      len := 0;
      r := Ok;
    }
  }
}
