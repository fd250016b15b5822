/** Users, items and three kinds of labels laid end to end in one integer space,
    and the byte stream the index is saved to. */
module UnifiedIndex {
  import opened Collections
  import opened Binary
  import opened Dictionary

  datatype Kind = UserKind | ItemKind | UserLabelKind | ItemLabelKind | ContextLabelKind

  /** The division of numbers is: user, item, user label, item label, context label. */
  datatype Unified = Unified(users: seq<Name>, items: seq<Name>, userLabels: seq<Name>, itemLabels: seq<Name>,
                             contextLabels: seq<Name>)

  function NamesOf(u: Unified, k: Kind): seq<Name> {
    match k
    case UserKind => u.users
    case ItemKind => u.items
    case UserLabelKind => u.userLabels
    case ItemLabelKind => u.itemLabels
    case ContextLabelKind => u.contextLabels
  }

  predicate Valid(u: Unified) {
    forall k: Kind :: Distinct(NamesOf(u, k))
  }

  function Len(u: Unified): nat {
    |u.users| + |u.items| + |u.userLabels| + |u.itemLabels| + |u.contextLabels|
  }

  function EncodeUser(u: Unified, name: Name): int {
    Position(u.users, name)
  }

  function EncodeItem(u: Unified, name: Name): int {
    var n := Position(u.items, name);
    if n != NOT_ID then n + |u.users| else n
  }

  function EncodeUserLabel(u: Unified, name: Name): int {
    var n := Position(u.userLabels, name);
    if n != NOT_ID then n + |u.users| + |u.items| else n
  }

  function EncodeItemLabel(u: Unified, name: Name): int {
    var n := Position(u.itemLabels, name);
    if n != NOT_ID then n + |u.users| + |u.items| + |u.userLabels| else n
  }

  function EncodeContextLabel(u: Unified, name: Name): int {
    var n := Position(u.contextLabels, name);
    if n != NOT_ID then n + |u.users| + |u.items| + |u.userLabels| + |u.itemLabels| else n
  }

  function EncodeName(u: Unified, k: Kind, name: Name): int {
    match k
    case UserKind => EncodeUser(u, name)
    case ItemKind => EncodeItem(u, name)
    case UserLabelKind => EncodeUserLabel(u, name)
    case ItemLabelKind => EncodeItemLabel(u, name)
    case ContextLabelKind => EncodeContextLabel(u, name)
  }

  function KindAt(n: nat): Kind
    requires n < 5
  {
    match n
    case 0 => UserKind
    case 1 => ItemKind
    case 2 => UserLabelKind
    case 3 => ItemLabelKind
    case _ => ContextLabelKind
  }

  function Order(k: Kind): (n: nat)
    ensures n < 5 && KindAt(n) == k
  {
    match k
    case UserKind => 0
    case ItemKind => 1
    case UserLabelKind => 2
    case ItemLabelKind => 3
    case ContextLabelKind => 4
  }

  /** The number of names of the first `n` kinds. */
  function SizeOfFirst(u: Unified, n: nat): nat
    requires n <= 5
  {
    if n == 0 then 0 else SizeOfFirst(u, n - 1) + |NamesOf(u, KindAt(n - 1))|
  }

  /** Where the range of a kind starts: right after the kinds before it. */
  function Start(u: Unified, k: Kind): nat {
    SizeOfFirst(u, Order(k))
  }

  lemma RangeStarts(u: Unified)
    ensures SizeOfFirst(u, 1) == |u.users|
    ensures SizeOfFirst(u, 2) == |u.users| + |u.items|
    ensures SizeOfFirst(u, 3) == |u.users| + |u.items| + |u.userLabels|
    ensures SizeOfFirst(u, 4) == |u.users| + |u.items| + |u.userLabels| + |u.itemLabels|
    ensures SizeOfFirst(u, 5) == Len(u)
  {
    assert SizeOfFirst(u, 0) == 0;
  }

  /** Which kind a number of the space belongs to. */
  function KindOf(u: Unified, x: nat): Kind {
    if x < |u.users| then UserKind
    else if x < |u.users| + |u.items| then ItemKind
    else if x < |u.users| + |u.items| + |u.userLabels| then UserLabelKind
    else if x < |u.users| + |u.items| + |u.userLabels| + |u.itemLabels| then ItemLabelKind
    else ContextLabelKind
  }

  /** A known name gets a number in the range of its kind; an unknown name gets
      NOT_ID, and only an unknown name does. */
  lemma EncodersFillRanges(u: Unified, k: Kind, name: Name)
    ensures name !in NamesOf(u, k) <==> EncodeName(u, k, name) == NOT_ID
    ensures name in NamesOf(u, k) ==>
              Start(u, k) <= EncodeName(u, k, name) < Start(u, k) + |NamesOf(u, k)| <= Len(u)
  {
    RangeStarts(u);
  }

  /** No two names, of the same kind or of different kinds, share a number. */
  lemma EncodersInjective(u: Unified, k1: Kind, n1: Name, k2: Kind, n2: Name)
    requires EncodeName(u, k1, n1) == EncodeName(u, k2, n2) != NOT_ID
    ensures k1 == k2 && n1 == n2
  {
    EncodersFillRanges(u, k1, n1);
    EncodersFillRanges(u, k2, n2);
    KindOfRange(u, k1, EncodeName(u, k1, n1));
    KindOfRange(u, k2, EncodeName(u, k2, n2));
    SameKind(u, k1, n1, n2);
  }

  /** The ranges are disjoint. */
  lemma KindOfRange(u: Unified, k: Kind, x: nat)
    requires Start(u, k) <= x < Start(u, k) + |NamesOf(u, k)|
    ensures KindOf(u, x) == k
  {
    RangeStarts(u);
  }

  lemma SameKind(u: Unified, k: Kind, n1: Name, n2: Name)
    requires EncodeName(u, k, n1) == EncodeName(u, k, n2) != NOT_ID
    ensures n1 == n2
  {
  }

  /** Every number from 0 to Len - 1 is the number of some name. */
  lemma EncodersCover(u: Unified, x: nat)
    requires Valid(u) && x < Len(u)
    ensures var k := KindOf(u, x);
      && 0 <= x - Start(u, k) < |NamesOf(u, k)|
      && EncodeName(u, k, NamesOf(u, k)[x - Start(u, k)]) == x
  {
    RangeStarts(u);
    var k := KindOf(u, x);
    assert Distinct(NamesOf(u, k));
    PositionOf(NamesOf(u, k), x - Start(u, k));
  }

  // ------------------------------------------------------------------
  // Serialisation
  // ------------------------------------------------------------------

  predicate FitsInt32(names: seq<Name>) {
    Fits(|names|, INT32) && forall i :: 0 <= i < |names| ==> Fits(|names[i]|, INT32)
  }

  function WriteBytes(s: Name): seq<byte>
    requires Fits(|s|, INT32)
  {
    Encode(|s|, INT32) + s
  }

  function WriteNames(names: seq<Name>): seq<byte>
    requires forall i :: 0 <= i < |names| ==> Fits(|names[i]|, INT32)
  {
    if names == [] then [] else WriteBytes(names[0]) + WriteNames(names[1..])
  }

  /** Index.Marshal. */
  function MarshalIndex(names: seq<Name>): seq<byte>
    requires FitsInt32(names)
  {
    Encode(|names|, INT32) + WriteNames(names)
  }

  /** ReadBytes. `strict` readers report the end of the stream even when no byte
      is asked for, so that an empty string at the very end is an error. A
      negative length, for which the original panics, is an error here. */
  function ReadBytes(input: seq<byte>, strict: bool): (r: Option<(Name, seq<byte>)>)
    ensures r.Some? ==> |r.value.1| < |input|
  {
    if |input| < 4 then None
    else
      var n := Decode(input[..4]);
      if n < 0 || |input| - 4 < n || (strict && n == 0 && |input| == 4) then None
      else Some((input[4..4 + n], input[4 + n..]))
  }

  /** The loop of Index.Unmarshal: reads `n` names and adds them to `names`. */
  function ReadNames(input: seq<byte>, n: nat, names: seq<Name>, strict: bool): Option<(seq<Name>, seq<byte>)>
    decreases n
  {
    if n == 0 then Some((names, input))
    else match ReadBytes(input, strict)
      case None => None
      case Some((s, rest)) => ReadNames(rest, n - 1, Added(names, s), strict)
  }

  function UnmarshalIndex(input: seq<byte>, strict: bool): Option<(seq<Name>, seq<byte>)> {
    if |input| < 4 || Decode(input[..4]) < 0 then None
    else ReadNames(input[4..], Decode(input[..4]), [], strict)
  }

  lemma ReadBytesBack(s: Name, rest: seq<byte>, strict: bool)
    requires Fits(|s|, INT32)
    ensures ReadBytes(WriteBytes(s) + rest, strict)
         == if strict && s == [] && rest == [] then None else Some((s, rest))
  {
    var input := WriteBytes(s) + rest;
    RoundTrip(|s|, INT32);
    assert input[..4] == Encode(|s|, INT32);
    assert input[4..4 + |s|] == s && input[4 + |s|..] == rest;
  }

  /** The last thing written is an empty string and nothing follows it. */
  predicate EndsEmpty(names: seq<Name>, junk: seq<byte>) {
    junk == [] && names != [] && names[|names| - 1] == []
  }

  lemma FirstIsNew(before: seq<Name>, names: seq<Name>)
    requires Distinct(before + names) && names != []
    ensures Added(before, names[0]) == before + [names[0]]
    ensures before + [names[0]] + names[1..] == before + names
  {
    NotBefore(before, names);
    assert before + names == before + [names[0]] + names[1..];
  }

  lemma NotBefore(before: seq<Name>, names: seq<Name>)
    requires Distinct(before + names) && names != []
    ensures names[0] !in before
  {
    forall i | 0 <= i < |before|
      ensures before[i] != names[0]
    {
      assert (before + names)[i] != (before + names)[|before|];
    }
  }

  lemma RestEndsEmpty(names: seq<Name>, junk: seq<byte>)
    requires names != [] && forall i :: 0 <= i < |names| ==> Fits(|names[i]|, INT32)
    ensures var rest := WriteNames(names[1..]) + junk;
      && (|names| > 1 ==> rest != [] && (EndsEmpty(names[1..], junk) <==> EndsEmpty(names, junk)))
      && (|names| == 1 ==> rest == junk && !EndsEmpty(names[1..], junk))
  {
    if |names| > 1 {
      assert names[1..][|names| - 2] == names[|names| - 1];
      assert |WriteNames(names[1..])| >= 4;
    }
  }

  lemma {:induction false} ReadNamesBack(before: seq<Name>, names: seq<Name>, junk: seq<byte>, strict: bool)
    requires Distinct(before + names)
    requires forall i :: 0 <= i < |names| ==> Fits(|names[i]|, INT32)
    ensures ReadNames(WriteNames(names) + junk, |names|, before, strict)
         == if strict && EndsEmpty(names, junk) then None else Some((before + names, junk))
    decreases |names|
  {
    if names == [] {
      assert WriteNames(names) + junk == junk && before + names == before;
    } else {
      FirstIsNew(before, names);
      RestEndsEmpty(names, junk);
      ReadNamesBack(before + [names[0]], names[1..], junk, strict);
      FirstNameBack(before, names, junk, strict);
    }
  }

  lemma FirstNameBack(before: seq<Name>, names: seq<Name>, junk: seq<byte>, strict: bool)
    requires names != [] && names[0] !in before && Fits(|names[0]|, INT32)
    requires forall i :: 0 <= i < |names| ==> Fits(|names[i]|, INT32)
    ensures var rest := WriteNames(names[1..]) + junk;
      ReadNames(WriteNames(names) + junk, |names|, before, strict)
      == if strict && names[0] == [] && rest == [] then None
         else ReadNames(rest, |names| - 1, before + [names[0]], strict)
  {
    var rest := WriteNames(names[1..]) + junk;
    assert WriteNames(names) + junk == WriteBytes(names[0]) + rest;
    ReadBytesBack(names[0], rest, strict);
  }

  /** Reading back a saved index with anything behind it gives the same names and
      leaves what follows, except that a strict reader fails exactly if the last
      name is empty and the stream ends with it. */
  lemma IndexRoundTrip(names: seq<Name>, junk: seq<byte>, strict: bool)
    requires Distinct(names) && FitsInt32(names)
    ensures UnmarshalIndex(MarshalIndex(names) + junk, strict)
         == if strict && EndsEmpty(names, junk) then None else Some((names, junk))
  {
    var input := MarshalIndex(names) + junk;
    RoundTrip(|names|, INT32);
    assert input[..4] == Encode(|names|, INT32);
    assert input[4..] == WriteNames(names) + junk;
    assert [] + names == names;
    ReadNamesBack([], names, junk, strict);
  }

  predicate UnifiedFits(u: Unified) {
    forall k: Kind :: FitsInt32(NamesOf(u, k))
  }

  function MarshalUnified(u: Unified): seq<byte>
    requires UnifiedFits(u)
  {
    assert forall k: Kind :: FitsInt32(NamesOf(u, k));
    assert FitsInt32(NamesOf(u, UserKind)) && FitsInt32(NamesOf(u, ItemKind)) && FitsInt32(NamesOf(u, UserLabelKind));
    assert FitsInt32(NamesOf(u, ItemLabelKind)) && FitsInt32(NamesOf(u, ContextLabelKind));
    MarshalIndex(u.users) + (MarshalIndex(u.items) + (MarshalIndex(u.userLabels)
    + (MarshalIndex(u.itemLabels) + MarshalIndex(u.contextLabels))))
  }

  function UnmarshalUnified(input: seq<byte>, strict: bool): Option<(Unified, seq<byte>)> {
    match UnmarshalIndex(input, strict)
    case None => None
    case Some((users, r1)) =>
      match UnmarshalIndex(r1, strict)
      case None => None
      case Some((items, r2)) =>
        match UnmarshalIndex(r2, strict)
        case None => None
        case Some((userLabels, r3)) =>
          match UnmarshalIndex(r3, strict)
          case None => None
          case Some((itemLabels, r4)) =>
            match UnmarshalIndex(r4, strict)
            case None => None
            case Some((contextLabels, r5)) => Some((Unified(users, items, userLabels, itemLabels, contextLabels), r5))
  }

  lemma UnifiedRoundTrip(u: Unified, junk: seq<byte>, strict: bool)
    requires Valid(u) && UnifiedFits(u)
    ensures UnmarshalUnified(MarshalUnified(u) + junk, strict)
         == if strict && EndsEmpty(u.contextLabels, junk) then None else Some((u, junk))
  {
    assert Distinct(NamesOf(u, UserKind)) && Distinct(NamesOf(u, ItemKind)) && Distinct(NamesOf(u, UserLabelKind));
    assert Distinct(NamesOf(u, ItemLabelKind)) && Distinct(NamesOf(u, ContextLabelKind));
    assert FitsInt32(NamesOf(u, UserKind)) && FitsInt32(NamesOf(u, ItemKind)) && FitsInt32(NamesOf(u, UserLabelKind));
    assert FitsInt32(NamesOf(u, ItemLabelKind)) && FitsInt32(NamesOf(u, ContextLabelKind));
    var t4 := MarshalIndex(u.contextLabels) + junk;
    var t3 := MarshalIndex(u.itemLabels) + t4;
    var t2 := MarshalIndex(u.userLabels) + t3;
    var t1 := MarshalIndex(u.items) + t2;
    assert MarshalUnified(u) + junk == MarshalIndex(u.users) + t1;
    IndexRoundTrip(u.users, t1, strict);
    IndexRoundTrip(u.items, t2, strict);
    IndexRoundTrip(u.userLabels, t3, strict);
    IndexRoundTrip(u.itemLabels, t4, strict);
    IndexRoundTrip(u.contextLabels, junk, strict);
  }

  // ------------------------------------------------------------------
  // The tagged outer format
  // ------------------------------------------------------------------

  const MAP_INDEX: byte := 0
  const DIRECT_INDEX: byte := 1
  const NIL_INDEX: byte := 2

  datatype AnyIndex = MapIndex(unified: Unified) | DirectIndex(n: int) | NilIndex

  predicate AnyFits(a: AnyIndex) {
    match a
    case MapIndex(u) => Valid(u) && UnifiedFits(u)
    case DirectIndex(n) => Fits(n, INT32)
    case NilIndex => true
  }

  function MarshalAny(a: AnyIndex): seq<byte>
    requires AnyFits(a)
  {
    match a
    case MapIndex(u) => [MAP_INDEX] + MarshalUnified(u)
    case DirectIndex(n) => [DIRECT_INDEX] + Encode(n, INT32)
    case NilIndex => [NIL_INDEX]
  }

  function UnmarshalAny(input: seq<byte>, strict: bool): Option<(AnyIndex, seq<byte>)> {
    if input == [] then None
    else if input[0] == MAP_INDEX then
      match UnmarshalUnified(input[1..], strict)
      case None => None
      case Some((u, rest)) => Some((MapIndex(u), rest))
    else if input[0] == DIRECT_INDEX then
      if |input| < 5 then None else Some((DirectIndex(Decode(input[1..5])), input[5..]))
    else if input[0] == NIL_INDEX then Some((NilIndex, input[1..]))
    else None
  }

  /** A saved index of any type, with anything behind it, is read back unchanged,
      under the same exception as a single index. */
  lemma AnyRoundTrip(a: AnyIndex, junk: seq<byte>, strict: bool)
    requires AnyFits(a)
    ensures UnmarshalAny(MarshalAny(a) + junk, strict)
         == if strict && a.MapIndex? && EndsEmpty(a.unified.contextLabels, junk) then None else Some((a, junk))
  {
    match a {
      case MapIndex(u) => MapRoundTrip(u, junk, strict);
      case DirectIndex(n) => DirectRoundTrip(n, junk, strict);
      case NilIndex => assert ([NIL_INDEX] + junk)[1..] == junk;
    }
  }

  lemma MapRoundTrip(u: Unified, junk: seq<byte>, strict: bool)
    requires Valid(u) && UnifiedFits(u)
    ensures UnmarshalAny([MAP_INDEX] + MarshalUnified(u) + junk, strict)
         == if strict && EndsEmpty(u.contextLabels, junk) then None else Some((MapIndex(u), junk))
  {
    var input := [MAP_INDEX] + MarshalUnified(u) + junk;
    assert input[0] == MAP_INDEX && input[1..] == MarshalUnified(u) + junk;
    UnifiedRoundTrip(u, junk, strict);
  }

  lemma DirectRoundTrip(n: int, junk: seq<byte>, strict: bool)
    requires Fits(n, INT32)
    ensures UnmarshalAny([DIRECT_INDEX] + Encode(n, INT32) + junk, strict) == Some((DirectIndex(n), junk))
  {
    var input := [DIRECT_INDEX] + Encode(n, INT32) + junk;
    RoundTrip(n, INT32);
    assert input[0] == DIRECT_INDEX && input[1..5] == Encode(n, INT32) && input[5..] == junk;
  }

  /** The first byte of a saved index tells its type; that of a map index is followed
      by the users, their number first with its lowest byte in front. */
  lemma SavedLayout(a: AnyIndex)
    requires AnyFits(a)
    ensures var s := MarshalAny(a);
      && |s| >= 1 && s[0] == (if a.MapIndex? then 0 else if a.DirectIndex? then 1 else 2)
      && (a.NilIndex? ==> |s| == 1)
      && (a.DirectIndex? ==> |s| == 5 && s[1] == a.n % 256)
      && (a.MapIndex? ==> UsersFirst(s[1..], a.unified.users))
  {
    match a {
      case MapIndex(u) =>
        UsersComeFirst(u);
        assert MarshalAny(a)[1..] == MarshalUnified(u);
      case DirectIndex(n) =>
        LowByteFirst(n, INT32, 0);
      case NilIndex =>
    }
  }

  predicate UsersFirst(s: seq<byte>, users: seq<Name>) {
    && |s| >= 4 && s[0] == |users| % 256
    && UnmarshalIndex(s, false).Some? && UnmarshalIndex(s, false).value.0 == users
  }

  lemma UsersComeFirst(u: Unified)
    requires Valid(u) && UnifiedFits(u)
    ensures UsersFirst(MarshalUnified(u), u.users)
  {
    assert FitsInt32(NamesOf(u, UserKind)) && Distinct(NamesOf(u, UserKind));
    var rest := MarshalUnified(u)[|MarshalIndex(u.users)|..];
    assert MarshalUnified(u) == MarshalIndex(u.users) + rest;
    IndexRoundTrip(u.users, rest, false);
    LowByteFirst(|u.users|, INT32, 0);
  }

  /** A stream with any other first byte is refused. */
  lemma UnknownTypeIsRefused(input: seq<byte>, strict: bool)
    requires input != [] && input[0] > 2
    ensures UnmarshalAny(input, strict) == None
  {
  }

  // ------------------------------------------------------------------
  // The implementation of the single index
  // ------------------------------------------------------------------

  /** Index.Marshal, name by name. */
  method Marshal(index: Index) returns (output: seq<byte>)
    requires index.Valid() && FitsInt32(index.names)
    ensures output == MarshalIndex(index.names)
  {
    output := Encode(|index.names|, INT32);
    ghost var header := output;
    for i := 0 to |index.names|
      invariant output + WriteNames(index.names[i..]) == header + WriteNames(index.names)
    {
      assert index.names[i..][1..] == index.names[i + 1..];
      output := output + WriteBytes(index.names[i]);
    }
  }

  /** The loop of Index.Unmarshal. */
  method UnmarshalNames(index: Index, input: seq<byte>, n: nat, strict: bool) returns (rest: seq<byte>, ok: bool)
    requires index.Valid() && index.names == [] && n < MAX_NAMES
    modifies index
    ensures index.Valid()
    ensures ReadNames(input, n, [], strict) == if ok then Some((index.names, rest)) else None
  {
    rest := input;
    for i := 0 to n
      invariant StillToRead(input, n, strict, index, i, rest)
    {
      var read := UnmarshalName(index, rest, input, n, i, strict);
      if read.None? {
        return rest, false;
      }
      rest := read.value;
    }
    ok := true;
  }

  /** `i` of the `n` names are read, and the reader stands at `rest`. */
  ghost predicate StillToRead(input: seq<byte>, n: nat, strict: bool, index: Index, i: nat, rest: seq<byte>)
    reads index
  {
    && index.Valid() && |index.names| <= i <= n
    && ReadNames(input, n, [], strict) == ReadNames(rest, n - i, index.names, strict)
  }

  /** The body of that loop: one name, and what follows it. */
  method UnmarshalName(index: Index, from: seq<byte>, ghost input: seq<byte>, ghost n: nat, ghost i: nat, strict: bool)
    returns (rest: Option<seq<byte>>)
    requires StillToRead(input, n, strict, index, i, from) && i < n < MAX_NAMES
    modifies index
    ensures if rest.None? then index.Valid() && ReadNames(input, n, [], strict) == None
            else StillToRead(input, n, strict, index, i + 1, rest.value)
  {
    var r := ReadBytes(from, strict);
    if r.None? {
      return None;
    }
    index.Add(r.value.0);
    rest := Some(r.value.1);
  }

  /** UnmarshalIndex: Index.Unmarshal into a new index. */
  method Unmarshal(input: seq<byte>, strict: bool) returns (index: Index, rest: seq<byte>, ok: bool)
    ensures fresh(index) && index.Valid()
    ensures UnmarshalIndex(input, strict) == if ok then Some((index.names, rest)) else None
  {
    index := new Index(map[], []);
    if |input| < 4 {
      return index, input, false;
    }
    var n := Decode(input[..4]);
    if n < 0 {
      return index, input, false;
    }
    DecodeFits(input[..4]);
    FitsInt32Bound(n);
    rest, ok := UnmarshalNames(index, input[4..], n, strict);
  }

  lemma FitsInt32Bound(n: int)
    requires Fits(n, Width(4))
    ensures n < MAX_NAMES
  {
    FitsInt64(n);
  }
}
