/** Indexing labels in one pass: a label gets a number at its second occurrence, and
    the owner of the first occurrence gets its entry only then. Users and items
    are handled by the same loop; both are owners here, numbered from 0 in the
    order in which they are read. */
module LabelIndexer {
  import opened Dictionary

  datatype Feature = Feature(name: Name, value: int)

  /** A feature of an owner. */
  datatype Occurrence = Occurrence(owner: nat, feature: Feature)

  /** An entry in the list of an owner: the number of a label and a value. */
  datatype Entry = Entry(number: int, value: int)

  // ------------------------------------------------------------------
  // The two-pass definition
  // ------------------------------------------------------------------

  function TimesSeen(s: seq<Occurrence>, name: Name): nat {
    if s == [] then 0 else TimesSeen(s[..|s| - 1], name) + if s[|s| - 1].feature.name == name then 1 else 0
  }

  /** The values of an owner's occurrences of a label, in order. */
  function OwnValues(s: seq<Occurrence>, owner: nat, name: Name): seq<int> {
    if s == [] then []
    else
      var o := s[|s| - 1];
      OwnValues(s[..|s| - 1], owner, name)
      + if o.feature.name == name && o.owner == owner then [o.feature.value] else []
  }

  /** The labels that occur at least twice, in the order of their second occurrences. */
  function Repeated(s: seq<Occurrence>): seq<Name> {
    if s == [] then []
    else
      var name := s[|s| - 1].feature.name;
      Repeated(s[..|s| - 1]) + if TimesSeen(s[..|s| - 1], name) == 1 then [name] else []
  }

  function FirstOwner(s: seq<Occurrence>, name: Name): nat {
    if s == [] then 0
    else if TimesSeen(s[..|s| - 1], name) > 0 then FirstOwner(s[..|s| - 1], name)
    else s[|s| - 1].owner
  }

  function FirstValue(s: seq<Occurrence>, name: Name): int {
    if s == [] then 0
    else if TimesSeen(s[..|s| - 1], name) > 0 then FirstValue(s[..|s| - 1], name)
    else s[|s| - 1].feature.value
  }

  function SecondValue(s: seq<Occurrence>, name: Name): int {
    if s == [] then 0
    else if TimesSeen(s[..|s| - 1], name) > 1 then SecondValue(s[..|s| - 1], name)
    else s[|s| - 1].feature.value
  }

  /** What is filed for an owner: its own values, except that the owner of the first
      occurrence gets the second one's value for it. */
  function FiledValues(s: seq<Occurrence>, owner: nat, name: Name): seq<int> {
    var own := OwnValues(s, owner, name);
    if own != [] && owner == FirstOwner(s, name) then [SecondValue(s, name)] + own[1..] else own
  }

  /** The values of the entries with a number, in order. */
  function EntryValues(entries: seq<Entry>, number: int): seq<int> {
    if entries == [] then []
    else
      var e := entries[|entries| - 1];
      EntryValues(entries[..|entries| - 1], number) + if e.number == number then [e.value] else []
  }

  predicate NumbersBelow(entries: seq<Entry>, n: nat) {
    forall k :: 0 <= k < |entries| ==> 0 <= entries[k].number < n
  }

  /** Labels are indexed exactly if they occur twice or more, and every owner has the
      filed values of an indexed label as its entries, in order. */
  ghost predicate IsIndexed(s: seq<Occurrence>, names: seq<Name>, labels: seq<seq<Entry>>) {
    && Distinct(names) && (forall name :: name in names <==> TimesSeen(s, name) >= 2)
    && EntriesMatch(s, names, labels)
  }

  ghost predicate EntriesMatch(s: seq<Occurrence>, names: seq<Name>, labels: seq<seq<Entry>>) {
    && (forall u :: 0 <= u < |labels| ==> NumbersBelow(labels[u], |names|))
    && (forall u: nat, n :: u < |labels| && 0 <= n < |names| ==>
        EntryValues(labels[u], n) == FiledValues(s, u, names[n]))
  }

  lemma {:induction false} RepeatedFacts(s: seq<Occurrence>)
    ensures Distinct(Repeated(s)) && |Repeated(s)| <= |s|
    ensures forall name :: name in Repeated(s) <==> TimesSeen(s, name) >= 2
  {
    if s != [] {
      RepeatedFacts(s[..|s| - 1]);
    }
  }

  /** The first value of the first owner is that of the first occurrence. */
  lemma {:induction false} FirstOwnerOwns(s: seq<Occurrence>, name: Name)
    requires TimesSeen(s, name) > 0
    ensures var own := OwnValues(s, FirstOwner(s, name), name); own != [] && own[0] == FirstValue(s, name)
  {
    var front := s[..|s| - 1];
    if TimesSeen(front, name) > 0 {
      FirstOwnerOwns(front, name);
    } else {
      NotSeenNotOwned(front, s[|s| - 1].owner, name);
    }
  }

  lemma {:induction false} NotSeenNotOwned(s: seq<Occurrence>, owner: nat, name: Name)
    requires TimesSeen(s, name) == 0
    ensures OwnValues(s, owner, name) == []
  {
    if s != [] {
      NotSeenNotOwned(s[..|s| - 1], owner, name);
    }
  }

  lemma {:induction false} SeenOnce(s: seq<Occurrence>, owner: nat, name: Name)
    requires TimesSeen(s, name) == 1
    ensures OwnValues(s, owner, name) == if FirstOwner(s, name) == owner then [FirstValue(s, name)] else []
  {
    var front := s[..|s| - 1];
    if TimesSeen(front, name) == 1 {
      SeenOnce(front, owner, name);
    } else {
      NotSeenNotOwned(front, owner, name);
    }
  }

  /** Every owner has as many entries of an indexed label as it had occurrences, the
      very first one included. */
  lemma EntriesPerOccurrence(s: seq<Occurrence>, names: seq<Name>, labels: seq<seq<Entry>>, u: nat, n: nat)
    requires IsIndexed(s, names, labels) && u < |labels| && n < |names|
    ensures |EntryValues(labels[u], n)| == |OwnValues(s, u, names[n])|
  {
    assert EntryValues(labels[u], n) == FiledValues(s, u, names[n]);
  }

  /** An owner's entries carry its own values if and only if it is not the owner of
      the first occurrence or the first two values are equal. */
  lemma ValuesKeptIff(s: seq<Occurrence>, names: seq<Name>, labels: seq<seq<Entry>>, u: nat, n: nat)
    requires IsIndexed(s, names, labels) && u < |labels| && n < |names|
    ensures var kept := u != FirstOwner(s, names[n]) || FirstValue(s, names[n]) == SecondValue(s, names[n]);
      && (EntryValues(labels[u], n) == OwnValues(s, u, names[n]) <==> kept)
      && (multiset(EntryValues(labels[u], n)) == multiset(OwnValues(s, u, names[n])) <==> kept)
  {
    var name, own := names[n], OwnValues(s, u, names[n]);
    assert EntryValues(labels[u], n) == FiledValues(s, u, name);
    assert name in names;
    if u == FirstOwner(s, name) {
      FirstOwnerOwns(s, name);
      assert own == [own[0]] + own[1..];
      ReplaceFirst(own, SecondValue(s, name));
    }
  }

  lemma ReplaceFirst(s: seq<int>, x: int)
    requires s != []
    ensures [x] + s[1..] == s <==> x == s[0]
    ensures multiset([x] + s[1..]) == multiset(s) <==> x == s[0]
  {
    var rest := s[1..];
    assert s == [s[0]] + rest;
    assert multiset([x] + rest) == multiset{x} + multiset(rest) && multiset(s) == multiset{s[0]} + multiset(rest);
    if x != s[0] {
      assert ([x] + rest)[0] == x;
      assert multiset(s)[x] == multiset(rest)[x] && multiset([x] + rest)[x] == multiset(rest)[x] + 1;
    }
  }

  // ------------------------------------------------------------------
  // The one-pass state
  // ------------------------------------------------------------------

  datatype State = State(count: map<Name, nat>, first: map<Name, nat>, names: seq<Name>, labels: seq<seq<Entry>>)

  function CountOf(count: map<Name, nat>, name: Name): nat {
    if name in count then count[name] else 0
  }

  predicate FirstKnown(st: State) {
    forall name :: name in st.count && st.count[name] > 0 ==> name in st.first && st.first[name] < |st.labels|
  }

  function Push(labels: seq<seq<Entry>>, owner: nat, e: Entry): seq<seq<Entry>>
    requires owner < |labels|
  {
    labels[owner := labels[owner] + [e]]
  }

  /** What the loop body does for one feature of an owner. */
  function Step(st: State, o: Occurrence): State
    requires FirstKnown(st) && o.owner < |st.labels|
  {
    var name := o.feature.name;
    var c := CountOf(st.count, name) + 1;
    var first := if c == 1 then st.first[name := o.owner] else st.first;
    var names := if c == 2 then Added(st.names, name) else st.names;
    var e := Entry(Position(names, name), o.feature.value);
    var filled := if c == 2 then Push(st.labels, first[name], e) else st.labels;
    State(st.count[name := c], first, names, if c > 1 then Push(filled, o.owner, e) else filled)
  }

  ghost predicate Inv(st: State, s: seq<Occurrence>) {
    && (forall name :: CountOf(st.count, name) == TimesSeen(s, name))
    && FirstKnown(st)
    && (forall name :: TimesSeen(s, name) > 0 ==> name in st.first && st.first[name] == FirstOwner(s, name))
    && st.names == Repeated(s)
    && IsIndexed(s, st.names, st.labels)
  }

  lemma PushValues(labels: seq<seq<Entry>>, owner: nat, e: Entry, n: nat)
    requires owner < |labels| && 0 <= e.number < n && forall u :: 0 <= u < |labels| ==> NumbersBelow(labels[u], n)
    ensures forall u :: 0 <= u < |labels| ==> NumbersBelow(Push(labels, owner, e)[u], n)
    ensures forall u, m :: 0 <= u < |labels| ==>
      EntryValues(Push(labels, owner, e)[u], m)
      == EntryValues(labels[u], m) + if u == owner && m == e.number then [e.value] else []
  {
    assert (labels[owner] + [e])[..|labels[owner]|] == labels[owner];
  }

  lemma {:induction false} NoneAbove(entries: seq<Entry>, n: nat)
    requires NumbersBelow(entries, n)
    ensures EntryValues(entries, n) == []
  {
    if entries != [] {
      NoneAbove(entries[..|entries| - 1], n);
    }
  }

  lemma SeenAppend(s: seq<Occurrence>, o: Occurrence)
    ensures forall name :: TimesSeen(s + [o], name) == TimesSeen(s, name) + if o.feature.name == name then 1 else 0
    ensures forall name :: FirstOwner(s + [o], name) == if TimesSeen(s, name) > 0 then FirstOwner(s, name) else o.owner
    ensures Repeated(s + [o]) == Repeated(s) + if TimesSeen(s, o.feature.name) == 1 then [o.feature.name] else []
  {
    assert (s + [o])[..|s|] == s;
  }

  lemma OwnAppend(s: seq<Occurrence>, o: Occurrence, u: nat, name: Name)
    ensures OwnValues(s + [o], u, name)
         == OwnValues(s, u, name) + if o.feature.name == name && o.owner == u then [o.feature.value] else []
  {
    assert (s + [o])[..|s|] == s;
  }

  /** How one more occurrence changes what is filed for a label seen before. */
  lemma FiledAppend(s: seq<Occurrence>, o: Occurrence, u: nat, name: Name)
    requires TimesSeen(s, name) >= 2
    ensures FiledValues(s + [o], u, name)
         == FiledValues(s, u, name) + if o.feature.name == name && o.owner == u then [o.feature.value] else []
  {
    OwnAppend(s, o, u, name);
    FirstOwnerOwns(s, name);
    FirstTwoAppend(s, o, name);
    var own := OwnValues(s, u, name);
    var more := if o.feature.name == name && o.owner == u then [o.feature.value] else [];
    if own != [] {
      assert (own + more)[1..] == own[1..] + more;
    }
  }

  lemma FirstTwoAppend(s: seq<Occurrence>, o: Occurrence, name: Name)
    requires TimesSeen(s, name) >= 2
    ensures FirstOwner(s + [o], name) == FirstOwner(s, name) && SecondValue(s + [o], name) == SecondValue(s, name)
  {
    assert (s + [o])[..|s|] == s;
  }

  lemma FiledSecond(s: seq<Occurrence>, o: Occurrence, u: nat)
    requires TimesSeen(s, o.feature.name) == 1
    ensures FiledValues(s + [o], u, o.feature.name)
         == (if u == FirstOwner(s, o.feature.name) then [o.feature.value] else [])
          + (if u == o.owner then [o.feature.value] else [])
  {
    assert (s + [o])[..|s|] == s;
    OwnAppend(s, o, u, o.feature.name);
    SeenOnce(s, u, o.feature.name);
  }

  lemma FirstStep(st: State, s: seq<Occurrence>, o: Occurrence)
    requires Inv(st, s) && o.owner < |st.labels| && TimesSeen(s, o.feature.name) == 0
    ensures EntriesMatch(s + [o], Step(st, o).names, Step(st, o).labels)
  {
    assert CountOf(st.count, o.feature.name) == 0;
    forall u: nat, m | u < |st.labels| && 0 <= m < |st.names|
      ensures EntryValues(st.labels[u], m) == FiledValues(s + [o], u, st.names[m])
    {
      assert st.names[m] in st.names;
      FiledAppend(s, o, u, st.names[m]);
    }
  }

  lemma SecondStep(st: State, s: seq<Occurrence>, o: Occurrence)
    requires Inv(st, s) && o.owner < |st.labels| && TimesSeen(s, o.feature.name) == 1
    ensures EntriesMatch(s + [o], Step(st, o).names, Step(st, o).labels)
    ensures Step(st, o).names == st.names + [o.feature.name]
  {
    RepeatedFacts(s);
    var name, n, st' := o.feature.name, |st.names|, Step(st, o);
    assert CountOf(st.count, name) == 1 && name !in st.names;
    SecondNumber(st.names, name);
    var e, first := Entry(n, o.feature.value), st.first[name];
    PushValues(st.labels, first, e, n + 1);
    PushValues(Push(st.labels, first, e), o.owner, e, n + 1);
    forall u: nat, m | u < |st.labels| && 0 <= m < |st'.names|
      ensures EntryValues(st'.labels[u], m) == FiledValues(s + [o], u, st'.names[m])
    {
      SecondEntries(st, s, o, u, m);
    }
  }

  lemma SecondNumber(names: seq<Name>, name: Name)
    requires Distinct(names) && name !in names
    ensures Added(names, name) == names + [name] && Position(names + [name], name) == |names|
  {
    PositionOf(names + [name], |names|);
  }

  lemma SecondEntries(st: State, s: seq<Occurrence>, o: Occurrence, u: nat, m: nat)
    requires Inv(st, s) && o.owner < |st.labels| && TimesSeen(s, o.feature.name) == 1
    requires u < |st.labels| && m <= |st.names| && o.feature.name !in st.names
    ensures var v := o.feature.value;
      (if m == |st.names| then [] else EntryValues(st.labels[u], m))
      + (if u == FirstOwner(s, o.feature.name) && m == |st.names| then [v] else [])
      + (if u == o.owner && m == |st.names| then [v] else [])
      == FiledValues(s + [o], u, (st.names + [o.feature.name])[m])
    ensures m == |st.names| ==> EntryValues(st.labels[u], m) == []
  {
    if m == |st.names| {
      NoneAbove(st.labels[u], m);
      FiledSecond(s, o, u);
    } else {
      assert st.names[m] in st.names;
      FiledAppend(s, o, u, st.names[m]);
    }
  }

  lemma LaterStep(st: State, s: seq<Occurrence>, o: Occurrence)
    requires Inv(st, s) && o.owner < |st.labels| && TimesSeen(s, o.feature.name) >= 2
    ensures EntriesMatch(s + [o], Step(st, o).names, Step(st, o).labels)
  {
    var name, st' := o.feature.name, Step(st, o);
    assert CountOf(st.count, name) >= 2 && name in st.names;
    var e := Entry(Position(st.names, name), o.feature.value);
    PushValues(st.labels, o.owner, e, |st.names|);
    forall u: nat, m | u < |st.labels| && 0 <= m < |st'.names|
      ensures EntryValues(st'.labels[u], m) == FiledValues(s + [o], u, st'.names[m])
    {
      PositionOf(st.names, m);
      FiledAppend(s, o, u, st.names[m]);
    }
  }

  lemma StepTables(st: State, s: seq<Occurrence>, o: Occurrence)
    requires Inv(st, s) && o.owner < |st.labels|
    ensures var st' := Step(st, o);
      && (forall name :: CountOf(st'.count, name) == TimesSeen(s + [o], name))
      && FirstKnown(st') && |st'.labels| == |st.labels|
      && (forall name :: TimesSeen(s + [o], name) > 0 ==>
          name in st'.first && st'.first[name] == FirstOwner(s + [o], name))
      && st'.names == Repeated(s + [o])
  {
    SeenAppend(s, o);
    RepeatedFacts(s);
    var name, st' := o.feature.name, Step(st, o);
    assert forall other :: CountOf(st'.count, other) == CountOf(st.count, other) + if other == name then 1 else 0;
  }

  /** One occurrence keeps the invariant. */
  lemma StepKeepsInv(st: State, s: seq<Occurrence>, o: Occurrence)
    requires Inv(st, s) && o.owner < |st.labels|
    ensures Inv(Step(st, o), s + [o]) && |Step(st, o).labels| == |st.labels|
  {
    StepTables(st, s, o);
    RepeatedFacts(s + [o]);
    if TimesSeen(s, o.feature.name) == 0 {
      FirstStep(st, s, o);
    } else if TimesSeen(s, o.feature.name) == 1 {
      SecondStep(st, s, o);
    } else {
      LaterStep(st, s, o);
    }
  }

  // ------------------------------------------------------------------
  // The loop
  // ------------------------------------------------------------------

  function OccurrencesOf(owner: nat, features: seq<Feature>): (r: seq<Occurrence>)
    ensures |r| == |features|
  {
    seq(|features|, k requires 0 <= k < |features| => Occurrence(owner, features[k]))
  }

  function Flatten(owners: seq<seq<Feature>>): seq<Occurrence> {
    if owners == [] then []
    else Flatten(owners[..|owners| - 1]) + OccurrencesOf(|owners| - 1, owners[|owners| - 1])
  }

  lemma {:induction false} FlattenPrefix(owners: seq<seq<Feature>>, k: nat)
    requires k <= |owners|
    ensures |Flatten(owners[..k])| <= |Flatten(owners)|
    decreases |owners|
  {
    if k < |owners| {
      FlattenPrefix(owners[..|owners| - 1], k);
      assert owners[..|owners| - 1][..k] == owners[..k];
    } else {
      assert owners[..k] == owners;
    }
  }

  /** A new owner starts with no entries. */
  lemma NewOwner(st: State, s: seq<Occurrence>)
    requires Inv(st, s) && forall k :: 0 <= k < |s| ==> s[k].owner < |st.labels|
    ensures Inv(st.(labels := st.labels + [[]]), s)
  {
    NewOwnerEntries(s, st.names, st.labels);
  }

  lemma NewOwnerEntries(s: seq<Occurrence>, names: seq<Name>, labels: seq<seq<Entry>>)
    requires EntriesMatch(s, names, labels) && forall k :: 0 <= k < |s| ==> s[k].owner < |labels|
    ensures EntriesMatch(s, names, labels + [[]])
  {
    var more := labels + [[]];
    forall u: nat, n | u < |more| && 0 <= n < |names|
      ensures EntryValues(more[u], n) == FiledValues(s, u, names[n])
    {
      if u == |labels| {
        UnseenOwner(s, u, names[n]);
      } else {
        assert more[u] == labels[u];
      }
    }
  }

  lemma {:induction false} UnseenOwner(s: seq<Occurrence>, owner: nat, name: Name)
    requires forall k :: 0 <= k < |s| ==> s[k].owner != owner
    ensures OwnValues(s, owner, name) == []
  {
    if s != [] {
      UnseenOwner(s[..|s| - 1], owner, name);
    }
  }

  class Indexer {
    var labelCount: map<Name, nat>
    var labelFirst: map<Name, nat>
    const labelIndex: Index
    var labels: seq<seq<Entry>>

    function Value(): State
      reads this, labelIndex
    {
      State(labelCount, labelFirst, labelIndex.names, labels)
    }

    constructor ()
      ensures Inv(Value(), []) && labels == [] && labelIndex.Valid() && fresh(labelIndex)
    {
      labelCount, labelFirst, labels := map[], map[], [];
      labelIndex := new Index(map[], []);
    }

    /** The body of the inner loop. */
    method AddFeature(owner: nat, feature: Feature)
      requires FirstKnown(Value()) && owner < |labels| && labelIndex.Valid() && |labelIndex.names| + 1 < MAX_NAMES
      modifies this`labelCount, this`labelFirst, this`labels, labelIndex
      ensures labelIndex.Valid() && Value() == Step(old(Value()), Occurrence(owner, feature))
    {
      var name := feature.name;
      labelCount := labelCount[name := (if name in labelCount then labelCount[name] else 0) + 1];
      if labelCount[name] == 1 {
        labelFirst := labelFirst[name := owner];
      }
      if labelCount[name] == 2 {
        AddToIndex(name, feature.value);
      }
      if labelCount[name] > 1 {
        var number := labelIndex.ToNumber(name);
        labels := Push(labels, owner, Entry(number, feature.value));
      }
    }

    /** The second occurrence of a label: index it and fill in the first one's entry. */
    method AddToIndex(name: Name, value: int)
      requires labelIndex.Valid() && |labelIndex.names| + 1 < MAX_NAMES
      requires name in labelFirst && labelFirst[name] < |labels|
      modifies this`labels, labelIndex
      ensures labelIndex.Valid() && labelIndex.names == Added(old(labelIndex.names), name)
      ensures labels == Push(old(labels), labelFirst[name], Entry(Position(labelIndex.names, name), value))
    {
      labelIndex.Add(name);
      var firstOwner := labelFirst[name];
      var number := labelIndex.ToNumber(name);
      labels := Push(labels, firstOwner, Entry(number, value));
    }

    method AddNext(owner: nat, feature: Feature, ghost s: seq<Occurrence>)
      requires Inv(Value(), s) && owner < |labels| && labelIndex.Valid() && |s| + 1 < MAX_NAMES
      modifies this`labelCount, this`labelFirst, this`labels, labelIndex
      ensures Inv(Value(), s + [Occurrence(owner, feature)]) && labelIndex.Valid() && |labels| == old(|labels|)
    {
      RepeatedFacts(s);
      StepKeepsInv(Value(), s, Occurrence(owner, feature));
      AddFeature(owner, feature);
    }

    method StartOwner(ghost s: seq<Occurrence>)
      requires Inv(Value(), s) && forall k :: 0 <= k < |s| ==> s[k].owner < |labels|
      modifies this`labels
      ensures Inv(Value(), s) && |labels| == old(|labels|) + 1
    {
      NewOwner(Value(), s);
      labels := labels + [[]];
    }

    method AddFeatures(owner: nat, features: seq<Feature>, ghost s: seq<Occurrence>)
      requires Inv(Value(), s) && owner < |labels| && labelIndex.Valid() && |s| + |features| + 1 < MAX_NAMES
      modifies this`labelCount, this`labelFirst, this`labels, labelIndex
      ensures Inv(Value(), s + OccurrencesOf(owner, features)) && labelIndex.Valid() && |labels| == old(|labels|)
    {
      ghost var t := s;
      for k := 0 to |features|
        invariant t == s + OccurrencesOf(owner, features)[..k]
        invariant Inv(Value(), t) && labelIndex.Valid() && |labels| == old(|labels|)
      {
        AddNext(owner, features[k], t);
        t := t + [Occurrence(owner, features[k])];
      }
      assert t == s + OccurrencesOf(owner, features);
    }

    /** The body of the outer loop. */
    method AddOwner(features: seq<Feature>, ghost s: seq<Occurrence>)
      requires Inv(Value(), s) && labelIndex.Valid() && |s| + |features| + 1 < MAX_NAMES
      requires forall k :: 0 <= k < |s| ==> s[k].owner < |labels|
      modifies this`labelCount, this`labelFirst, this`labels, labelIndex
      ensures Inv(Value(), s + OccurrencesOf(old(|labels|), features)) && labelIndex.Valid()
        && |labels| == old(|labels|) + 1
    {
      StartOwner(s);
      AddFeatures(|labels| - 1, features, s);
    }
  }

  /** The one-pass indexer meets the two-pass definition. */
  method IndexLabels(owners: seq<seq<Feature>>) returns (indexer: Indexer)
    requires |Flatten(owners)| + 1 < MAX_NAMES
    ensures fresh(indexer) && fresh(indexer.labelIndex) && |indexer.labels| == |owners|
    ensures IsIndexed(Flatten(owners), indexer.labelIndex.names, indexer.labels)
  {
    indexer := new Indexer();
    for u := 0 to |owners|
      invariant fresh(indexer) && fresh(indexer.labelIndex) && indexer.labelIndex.Valid()
      invariant Inv(indexer.Value(), Flatten(owners[..u])) && |indexer.labels| == u
      invariant forall k :: 0 <= k < |Flatten(owners[..u])| ==> Flatten(owners[..u])[k].owner < u
    {
      assert owners[..u + 1][..u] == owners[..u];
      FlattenPrefix(owners, u + 1);
      indexer.AddOwner(owners[u], Flatten(owners[..u]));
    }
    assert owners[..|owners|] == owners;
  }

  /** Owner 0 has label `a` with value 1, then owner 1 with value 2. */
  function TwoOwners(a: Name): seq<Occurrence> {
    [Occurrence(0, Feature(a, 1)), Occurrence(1, Feature(a, 2))]
  }

  lemma TwoOwnersSeen(a: Name)
    ensures forall name :: TimesSeen(TwoOwners(a), name) == if name == a then 2 else 0
    ensures FirstOwner(TwoOwners(a), a) == 0 && SecondValue(TwoOwners(a), a) == 2
    ensures OwnValues(TwoOwners(a), 0, a) == [1] && OwnValues(TwoOwners(a), 1, a) == [2]
  {
    var x, y := Occurrence(0, Feature(a, 1)), Occurrence(1, Feature(a, 2));
    var s := TwoOwners(a);
    assert s[..1] == [x] && [x][..0] == [] && s[..0] == [];
    forall name
      ensures TimesSeen(s, name) == if name == a then 2 else 0
    {
      assert TimesSeen([x], name) == if name == a then 1 else 0;
    }
    assert OwnValues([x], 0, a) == [1] && OwnValues([x], 1, a) == [];
  }

  /** The numbers hide that the value of a first occurrence is lost: the owner of
      the first gets the value of the second. */
  lemma FirstValueIsLost(a: Name, names: seq<Name>, labels: seq<seq<Entry>>)
    requires |labels| == 2 && IsIndexed(TwoOwners(a), names, labels)
    ensures names == [a] && labels[0] == labels[1] == [Entry(0, 2)]
  {
    TwoOwnersSeen(a);
    OnlyOne(names, a);
    forall u: nat | u < 2
      ensures labels[u] == [Entry(0, 2)]
    {
      assert NumbersBelow(labels[u], 1);
      AllSame(labels[u], 0);
      assert EntryValues(labels[u], 0) == FiledValues(TwoOwners(a), u, names[0]) == [2];
    }
  }

  lemma OnlyOne(names: seq<Name>, a: Name)
    requires Distinct(names) && forall name :: name in names <==> name == a
    ensures names == [a]
  {
    assert a in names;
    assert forall k :: 0 <= k < |names| ==> names[k] in names;
    assert names[0] == a && names[|names| - 1] == a;
  }

  lemma {:induction false} AllSame(entries: seq<Entry>, number: int)
    requires forall k :: 0 <= k < |entries| ==> entries[k].number == number
    ensures |EntryValues(entries, number)| == |entries|
    ensures forall k :: 0 <= k < |entries| ==> EntryValues(entries, number)[k] == entries[k].value
  {
    if entries != [] {
      AllSame(entries[..|entries| - 1], number);
    }
  }
}
