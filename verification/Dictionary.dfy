/** The dense indices that stand for names: the plain index, and the dictionary
    that also counts occurrences. Go strings are byte sequences; a dense index
    is a 32-bit number, so both assume fewer than 2^31 names. */
module Dictionary {
  import opened Binary

  type Name = seq<byte>

  const NOT_ID: int := -1
  const MAX_NAMES: nat := 0x8000_0000

  predicate Distinct(names: seq<Name>) {
    forall i, j :: 0 <= i < j < |names| ==> names[i] != names[j]
  }

  /** The dense index of `s` among `names`, or NOT_ID. */
  function Position(names: seq<Name>, s: Name): (r: int)
    ensures -1 <= r < |names|
    ensures r >= 0 ==> names[r] == s
    ensures r < 0 <==> s !in names
  {
    if names == [] then -1
    else if names[|names| - 1] == s then |names| - 1
    else Position(names[..|names| - 1], s)
  }

  lemma PositionOf(names: seq<Name>, i: nat)
    requires Distinct(names) && i < |names|
    ensures Position(names, names[i]) == i
  {
  }

  function Added(names: seq<Name>, s: Name): (r: seq<Name>)
    ensures Distinct(names) ==> Distinct(r)
    ensures names <= r && s in r
  {
    if s in names then names else names + [s]
  }

  /** The map and the list of an index describe each other. */
  predicate Inverse(numbers: map<Name, int>, names: seq<Name>) {
    && (forall i {:trigger names[i]} :: 0 <= i < |names| ==> names[i] in numbers && numbers[names[i]] == i)
    && (forall s {:trigger s in numbers} :: s in numbers ==> 0 <= numbers[s] < |names| && names[numbers[s]] == s)
  }

  lemma InverseFacts(numbers: map<Name, int>, names: seq<Name>, s: Name)
    requires Inverse(numbers, names)
    ensures Distinct(names)
    ensures s in numbers <==> s in names
    ensures Position(names, s) == if s in numbers then numbers[s] else NOT_ID
  {
    if s in numbers {
      PositionOf(names, numbers[s]);
    }
  }

  class Index {
    var numbers: map<Name, int>
    var names: seq<Name>

    predicate Valid()
      reads this
    {
      Inverse(numbers, names) && |names| < MAX_NAMES
    }

    /** NewMapIndex, or a view of the map and list of a dictionary. */
    constructor (numbers: map<Name, int>, names: seq<Name>)
      requires Inverse(numbers, names) && |names| < MAX_NAMES
      ensures Valid() && this.numbers == numbers && this.names == names
    {
      this.numbers, this.names := numbers, names;
    }

    method Add(name: Name)
      requires Valid() && |names| + 1 < MAX_NAMES
      modifies this
      ensures Valid() && names == Added(old(names), name)
    {
      InverseFacts(numbers, names, name);
      if name !in numbers {
        numbers := numbers[name := |names|];
        names := names + [name];
      }
    }

    method ToNumber(name: Name) returns (r: int)
      requires Valid()
      ensures r == Position(names, name)
    {
      InverseFacts(numbers, names, name);
      r := if name in numbers then numbers[name] else NOT_ID;
    }

    method ToName(i: nat) returns (r: Name)
      requires Valid() && i < |names|
      ensures Position(names, r) == i
    {
      PositionOf(names, i);
      r := names[i];
    }
  }

  // ------------------------------------------------------------------
  // Frequencies
  // ------------------------------------------------------------------

  datatype Operation = Count(name: Name) | Register(name: Name)

  datatype Dict = Dict(names: seq<Name>, counts: seq<nat>)

  predicate DictOk(d: Dict) {
    Distinct(d.names) && |d.counts| == |d.names|
  }

  /** FreqDict.Add and FreqDict.AddNoCount on values. */
  function Perform(d: Dict, op: Operation): (r: Dict)
    requires DictOk(d)
    ensures DictOk(r)
  {
    var i := Position(d.names, op.name);
    var one := if op.Count? then 1 else 0;
    if i >= 0 then d.(counts := d.counts[i := d.counts[i] + one])
    else Dict(d.names + [op.name], d.counts + [one])
  }

  function PerformAll(ops: seq<Operation>): (r: Dict)
    ensures DictOk(r)
  {
    if ops == [] then Dict([], [])
    else Perform(PerformAll(ops[..|ops| - 1]), ops[|ops| - 1])
  }

  function Occurrences(ops: seq<Operation>, s: Name): nat {
    if ops == [] then 0
    else Occurrences(ops[..|ops| - 1], s) + (if ops[|ops| - 1] == Count(s) then 1 else 0)
  }

  /** The frequency of an id: the method Freq, 0 for an unknown id. */
  function Frequency(d: Dict, id: nat): nat
    requires DictOk(d)
  {
    if id >= |d.counts| then 0 else d.counts[id]
  }

  /** The frequency of a name, 0 for an unknown one. */
  function FrequencyOf(d: Dict, s: Name): nat
    requires DictOk(d)
  {
    if s in d.names then d.counts[Position(d.names, s)] else 0
  }

  lemma PerformKnown(d: Dict, op: Operation, s: Name)
    requires DictOk(d) && op.name in d.names
    ensures var d' := Perform(d, op);
      d'.names == d.names && FrequencyOf(d', s) == FrequencyOf(d, s) + if op == Count(s) then 1 else 0
  {
  }

  lemma PerformNew(d: Dict, op: Operation, s: Name)
    requires DictOk(d) && op.name !in d.names
    ensures var d' := Perform(d, op);
      d'.names == d.names + [op.name] && FrequencyOf(d', s) == FrequencyOf(d, s) + if op == Count(s) then 1 else 0
  {
    var d' := Perform(d, op);
    assert d'.names == d.names + [op.name];
    if s in d.names {
      var i := Position(d.names, s);
      assert d'.names[i] == s;
      PositionOf(d'.names, i);
    } else if s == op.name {
      PositionOf(d'.names, |d.names|);
    }
  }

  lemma PerformFrequency(d: Dict, op: Operation, s: Name)
    requires DictOk(d)
    ensures var d' := Perform(d, op);
      && (s in d'.names <==> s in d.names || s == op.name)
      && FrequencyOf(d', s) == FrequencyOf(d, s) + if op == Count(s) then 1 else 0
  {
    if op.name in d.names {
      PerformKnown(d, op, s);
    } else {
      PerformNew(d, op, s);
    }
  }

  predicate AddedIn(ops: seq<Operation>, s: Name) {
    exists k :: 0 <= k < |ops| && ops[k].name == s
  }

  lemma AddedInStep(ops: seq<Operation>, s: Name)
    requires ops != []
    ensures AddedIn(ops, s) <==> AddedIn(ops[..|ops| - 1], s) || ops[|ops| - 1].name == s
  {
    var front := ops[..|ops| - 1];
    if AddedIn(front, s) {
      var k :| 0 <= k < |front| && front[k].name == s;
      assert ops[k].name == s;
    }
    if AddedIn(ops, s) && ops[|ops| - 1].name != s {
      var k :| 0 <= k < |ops| && ops[k].name == s;
      assert front[k].name == s;
    }
  }

  /** After any mix of counted and uncounted additions, a name has an id exactly
      if it was added, and its frequency is the number of counted additions. */
  lemma {:induction false} FrequencyCountsAdditions(ops: seq<Operation>, s: Name)
    ensures var d := PerformAll(ops);
      && (s in d.names <==> AddedIn(ops, s))
      && FrequencyOf(d, s) == Occurrences(ops, s)
      && (s in d.names ==> Frequency(d, Position(d.names, s)) == Occurrences(ops, s))
  {
    if ops != [] {
      var front, last := ops[..|ops| - 1], ops[|ops| - 1];
      FrequencyCountsAdditions(front, s);
      AddedInStep(ops, s);
      PerformFrequency(PerformAll(front), last, s);
    }
  }

  /** Ids never change: later additions only extend the list of names. */
  lemma {:induction false} IdsAreStable(ops: seq<Operation>, more: seq<Operation>)
    ensures PerformAll(ops).names <= PerformAll(ops + more).names
  {
    if more == [] {
      assert ops + more == ops;
    } else {
      assert (ops + more)[..|ops + more| - 1] == ops + more[..|more| - 1];
      IdsAreStable(ops, more[..|more| - 1]);
    }
  }

  class FreqDict {
    var si: map<Name, int>
    var names: seq<Name>
    var cnt: seq<nat>

    predicate Valid()
      reads this
    {
      Inverse(si, names) && |cnt| == |names| && |names| < MAX_NAMES
    }

    function Value(): Dict
      reads this
    {
      Dict(names, cnt)
    }

    constructor ()
      ensures Valid() && Value() == Dict([], [])
    {
      si, names, cnt := map[], [], [];
    }

    method Add(s: Name) returns (y: nat)
      requires Valid() && |names| + 1 < MAX_NAMES
      modifies this
      ensures Valid() && DictOk(old(Value())) && Value() == Perform(old(Value()), Count(s))
      ensures y == Position(names, s) && y < |names| <= |old(names)| + 1
    {
      InverseFacts(si, names, s);
      if s in si {
        y := si[s];
        cnt := cnt[y := cnt[y] + 1];
        return;
      }
      y := |names|;
      si := si[s := y];
      names := names + [s];
      cnt := cnt + [1];
      InverseFacts(si, names, s);
    }

    method AddNoCount(s: Name) returns (y: nat)
      requires Valid() && |names| + 1 < MAX_NAMES
      modifies this
      ensures Valid() && DictOk(old(Value())) && Value() == Perform(old(Value()), Register(s))
      ensures y == Position(names, s) && y < |names| <= |old(names)| + 1
    {
      InverseFacts(si, names, s);
      if s in si {
        y := si[s];
        return;
      }
      y := |names|;
      si := si[s := y];
      names := names + [s];
      cnt := cnt + [0];
      InverseFacts(si, names, s);
    }

    method Id(s: Name) returns (r: int)
      requires Valid()
      ensures r == Position(names, s)
    {
      InverseFacts(si, names, s);
      r := if s in si then si[s] else -1;
    }

    method String(id: nat) returns (s: Name, ok: bool)
      requires Valid()
      ensures ok <==> id < |names|
      ensures ok ==> Position(names, s) == id
    {
      if id >= |names| {
        return [], false;
      }
      PositionOf(names, id);
      return names[id], true;
    }

    method Freq(id: nat) returns (n: nat)
      requires Valid()
      ensures DictOk(Value()) && n == Frequency(Value(), id)
    {
      InverseFacts(si, names, []);
      n := if id >= |cnt| then 0 else cnt[id];
    }

    method ToIndex() returns (index: Index)
      requires Valid()
      ensures fresh(index) && index.Valid() && index.names == names && index.numbers == si
    {
      index := new Index(si, names);
    }
  }
}
