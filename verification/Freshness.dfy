/** Whether a cached recommendation is still good: the digest that the chain of
    recommenders computes is compared with the hash of the configuration, which is
    computed by another route, and the times are compared with each other.

    Times are integers with the zero time first. */
module Freshness {
  import opened Collections
  import opened Digest
  import opened Recommender

  // ------------------------------------------------------------------
  // The hash of the configuration
  // ------------------------------------------------------------------

  /** A recommender of the configuration: its full name and its hash. */
  datatype Registration = Registration(fullname: string, hash: string)

  datatype Section = PopularSection | ItemSection | UserSection | ExternalSection

  function SectionKind(s: Section, name: string): Kind {
    match s
    case PopularSection => NonPersonalized(name)
    case ItemSection => ItemToItem(name)
    case UserSection => UserToUser(name)
    case ExternalSection => External(name)
  }

  function SectionEntries(c: Config, s: Section): seq<Entry> {
    match s
    case PopularSection => c.nonPersonalized
    case ItemSection => c.itemToItem
    case UserSection => c.userToUser
    case ExternalSection => c.external
  }

  function Register(s: Section, e: Entry): Registration {
    Registration(FullName(SectionKind(s, e.name)), e.hash)
  }

  function RegisterAll(s: Section, entries: seq<Entry>): (r: seq<Registration>)
    ensures |r| == |entries| && forall k :: 0 <= k < |r| ==> r[k] == Register(s, entries[k])
  {
    seq(|entries|, k requires 0 <= k < |entries| => Register(s, entries[k]))
  }

  function Sections(c: Config): seq<Registration> {
    RegisterAll(PopularSection, c.nonPersonalized) + RegisterAll(ItemSection, c.itemToItem)
    + RegisterAll(UserSection, c.userToUser) + RegisterAll(ExternalSection, c.external)
  }

  /** All recommenders, in the order in which they are listed and hashed. */
  function Registered(c: Config): seq<Registration> {
    Sections(c) + [Registration(COLLABORATIVE, c.collaborativeHash), Registration(LATEST, LATEST)]
  }

  function FullNames(r: seq<Registration>): (names: seq<string>)
    ensures |names| == |r| && forall k :: 0 <= k < |r| ==> names[k] == r[k].fullname
  {
    seq(|r|, k requires 0 <= k < |r| => r[k].fullname)
  }

  /** The hashes of the selected recommenders. */
  function SelectedHashes(r: seq<Registration>, selected: set<string>): seq<string> {
    if r == [] then []
    else SelectedHashes(r[..|r| - 1], selected) + if r[|r| - 1].fullname in selected then [r[|r| - 1].hash] else []
  }

  /** The recommenders the ranker asks for: all of them if none is configured. */
  function RankerNames(c: Config): seq<string> {
    if c.rankerRecommenders != [] then c.rankerRecommenders else FullNames(Registered(c))
  }

  function Members(names: seq<string>): set<string> {
    set s | s in names
  }

  function ConfigHash(c: Config, md5: string -> string): string {
    Combine(md5, SelectedHashes(Registered(c), Members(RankerNames(c))))
  }

  /** Exactly the hashes of the selected recommenders, in order and with repeats. */
  lemma {:induction false} SelectedInOrder(r: seq<Registration>, selected: set<string>) returns (at: seq<nat>)
    ensures |at| == |SelectedHashes(r, selected)|
    ensures forall j :: 0 <= j < |at| ==> at[j] < |r| && SelectedHashes(r, selected)[j] == r[at[j]].hash
    ensures forall j, k :: 0 <= j < k < |at| ==> at[j] < at[k]
    ensures forall p: nat :: p < |r| ==> (p in at <==> r[p].fullname in selected)
  {
    if r == [] {
      at := [];
    } else {
      var n := |r| - 1;
      assert r == r[..n] + [r[n]];
      at := SelectedInOrder(r[..n], selected);
      if r[n].fullname in selected {
        at := at + [n];
      }
    }
  }

  lemma {:induction false} AllSelected(r: seq<Registration>, selected: set<string>)
    requires forall k :: 0 <= k < |r| ==> r[k].fullname in selected
    ensures |SelectedHashes(r, selected)| == |r|
    ensures forall k :: 0 <= k < |r| ==> SelectedHashes(r, selected)[k] == r[k].hash
  {
    if r != [] {
      AllSelected(r[..|r| - 1], selected);
    }
  }

  function AllHashes(r: seq<Registration>): (hashes: seq<string>)
    ensures |hashes| == |r| && forall k :: 0 <= k < |r| ==> hashes[k] == r[k].hash
  {
    seq(|r|, k requires 0 <= k < |r| => r[k].hash)
  }

  /** A ranker that lists nothing stands for all recommenders: every hash enters. */
  lemma EmptyRankerHashesAll(c: Config, md5: string -> string)
    requires c.rankerRecommenders == []
    ensures ConfigHash(c, md5) == Combine(md5, AllHashes(Registered(c)))
  {
    var r := Registered(c);
    EveryNameListed(r);
    AllSelected(r, Members(FullNames(r)));
    assert SelectedHashes(r, Members(FullNames(r))) == AllHashes(r);
  }

  lemma EveryNameListed(r: seq<Registration>)
    ensures forall k :: 0 <= k < |r| ==> r[k].fullname in Members(FullNames(r))
  {
    forall k | 0 <= k < |r|
      ensures r[k].fullname in Members(FullNames(r))
    {
      assert FullNames(r)[k] == r[k].fullname;
    }
  }

  lemma SelectedConcat(a: seq<Registration>, b: seq<Registration>, selected: set<string>)
    ensures SelectedHashes(a + b, selected) == SelectedHashes(a, selected) + SelectedHashes(b, selected)
  {
    if b == [] {
      assert a + b == a;
    } else {
      assert (a + b)[..|a + b| - 1] == a + b[..|b| - 1];
      SelectedConcat(a, b[..|b| - 1], selected);
    }
  }

  /** One of the loops of ListRecommenders. */
  method ListSection(s: Section, entries: seq<Entry>, recommenders: seq<string>) returns (r: seq<string>)
    ensures r == recommenders + FullNames(RegisterAll(s, entries))
  {
    r := recommenders;
    for k := 0 to |entries|
      invariant r == recommenders + FullNames(RegisterAll(s, entries))[..k]
    {
      r := r + [FullName(SectionKind(s, entries[k].name))];
    }
  }

  method ListRecommenders(c: Config) returns (r: seq<string>)
    ensures r == FullNames(Registered(c))
  {
    r := ListSection(PopularSection, c.nonPersonalized, []);
    r := ListSection(ItemSection, c.itemToItem, r);
    r := ListSection(UserSection, c.userToUser, r);
    r := ListSection(ExternalSection, c.external, r);
    r := r + [COLLABORATIVE];
    r := r + [LATEST];
  }

  /** One of the loops of Hash. */
  method HashSection(s: Section, entries: seq<Entry>, recommenders: set<string>, digests: seq<string>)
    returns (r: seq<string>)
    ensures r == digests + SelectedHashes(RegisterAll(s, entries), recommenders)
  {
    r := digests;
    ghost var all := RegisterAll(s, entries);
    for k := 0 to |entries|
      invariant r == digests + SelectedHashes(all[..k], recommenders)
    {
      assert all[..k + 1][..k] == all[..k];
      if FullName(SectionKind(s, entries[k].name)) in recommenders {
        r := r + [entries[k].hash];
      }
    }
    assert all[..|entries|] == all;
  }

  /** The recommenders that Hash selects. */
  method Selection(c: Config) returns (recommenders: set<string>)
    ensures recommenders == Members(RankerNames(c))
  {
    recommenders := Members(c.rankerRecommenders);
    HeadIsMember(c.rankerRecommenders);
    if recommenders == {} {
      var all := ListRecommenders(c);
      recommenders := Members(all);
    }
  }

  lemma HeadIsMember(names: seq<string>)
    ensures names != [] ==> names[0] in Members(names)
  {
  }

  method HashSections(c: Config, recommenders: set<string>) returns (digests: seq<string>)
    ensures digests == SelectedHashes(Sections(c), recommenders)
  {
    digests := HashSection(PopularSection, c.nonPersonalized, recommenders, []);
    digests := HashSection(ItemSection, c.itemToItem, recommenders, digests);
    digests := HashSection(UserSection, c.userToUser, recommenders, digests);
    digests := HashSection(ExternalSection, c.external, recommenders, digests);
    SelectedOfSections(c, recommenders);
  }

  method HashSelected(c: Config, recommenders: set<string>) returns (digests: seq<string>)
    ensures digests == SelectedHashes(Registered(c), recommenders)
  {
    digests := HashSections(c, recommenders);
    if COLLABORATIVE in recommenders {
      digests := digests + [c.collaborativeHash];
    }
    if LATEST in recommenders {
      digests := digests + [LATEST];
    }
    SelectedOfRest(c, recommenders);
  }

  method Hash(c: Config, md5: string -> string) returns (hash: string)
    ensures hash == ConfigHash(c, md5)
  {
    var recommenders := Selection(c);
    var digests := HashSelected(c, recommenders);
    hash := Combine(md5, digests);
  }

  lemma SelectedOfSections(c: Config, selected: set<string>)
    ensures SelectedHashes(Sections(c), selected)
         == SelectedHashes(RegisterAll(PopularSection, c.nonPersonalized), selected)
          + SelectedHashes(RegisterAll(ItemSection, c.itemToItem), selected)
          + SelectedHashes(RegisterAll(UserSection, c.userToUser), selected)
          + SelectedHashes(RegisterAll(ExternalSection, c.external), selected)
  {
    var a, b := RegisterAll(PopularSection, c.nonPersonalized), RegisterAll(ItemSection, c.itemToItem);
    var u, e := RegisterAll(UserSection, c.userToUser), RegisterAll(ExternalSection, c.external);
    SelectedConcat(a, b, selected);
    SelectedConcat(a + b, u, selected);
    SelectedConcat(a + b + u, e, selected);
  }

  lemma SelectedOfRest(c: Config, selected: set<string>)
    ensures SelectedHashes(Registered(c), selected)
         == SelectedHashes(Sections(c), selected) + (if COLLABORATIVE in selected then [c.collaborativeHash] else [])
          + (if LATEST in selected then [LATEST] else [])
  {
    var r, x, y := Sections(c), Registration(COLLABORATIVE, c.collaborativeHash), Registration(LATEST, LATEST);
    assert Registered(c)[..|r| + 1] == r + [x];
    assert (r + [x])[..|r|] == r;
  }

  // ------------------------------------------------------------------
  // The digest of the chain
  // ------------------------------------------------------------------

  /** The digest a source answers with, which does not depend on the exclude set. */
  function DigestOf(q: Request, fullname: string): string {
    match Parse(fullname)
    case None => ""
    case Some(Collaborative) => if q.stores.collaborativeDigest.Ok? then q.stores.collaborativeDigest.value else ""
    case Some(Latest) => LATEST
    case Some(NonPersonalized(name)) =>
      if q.stores.nonPersonalizedDigest(name).Ok? then q.stores.nonPersonalizedDigest(name).value else ""
    case Some(ItemToItem(name)) =>
      if Find(q.config.itemToItem, name).Some? then Find(q.config.itemToItem, name).value.hash else ""
    case Some(UserToUser(name)) =>
      if Find(q.config.userToUser, name).Some? then Find(q.config.userToUser, name).value.hash else ""
    case Some(External(name)) => ExternalHash(q.config, name)
  }

  function DigestsOf(q: Request, names: seq<string>): (r: seq<string>)
    ensures |r| == |names| && forall k :: 0 <= k < |r| ==> r[k] == DigestOf(q, names[k])
  {
    seq(|names|, k requires 0 <= k < |names| => DigestOf(q, names[k]))
  }

  lemma AskDigest(q: Request, fullname: string, exclude: set<string>)
    requires SelectsTop(q) && Ask(q, fullname, exclude).Ok?
    ensures Ask(q, fullname, exclude).value.digest == DigestOf(q, fullname)
  {
  }

  lemma {:induction false} SequentialDigests(q: Request, names: seq<string>, exclude: set<string>, result: seq<Score>,
                                             digests: seq<string>)
    requires SelectsTop(q)
    ensures var c := Sequential(q, names, exclude, result, digests, 0);
      c.result.Ok? ==> c.digests == digests + DigestsOf(q, names)
    decreases |names|
  {
    if names != [] {
      var a := Ask(q, names[0], exclude);
      if a.Ok? {
        AskDigest(q, names[0], exclude);
        SequentialDigests(q, names[1..], exclude + Ids(a.value.scores), result + a.value.scores,
                          digests + [a.value.digest]);
        assert DigestsOf(q, names) == [DigestOf(q, names[0])] + DigestsOf(q, names[1..]);
      }
    }
  }

  // ------------------------------------------------------------------
  // When they agree
  // ------------------------------------------------------------------

  predicate NoRepeats(names: seq<string>) {
    forall i, j :: 0 <= i < j < |names| ==> names[i] != names[j]
  }

  predicate UniqueEntries(entries: seq<Entry>) {
    forall i, j :: 0 <= i < j < |entries| ==> entries[i].name != entries[j].name
  }

  predicate UniqueNames(c: Config) {
    UniqueEntries(c.nonPersonalized) && UniqueEntries(c.itemToItem) && UniqueEntries(c.userToUser)
      && UniqueEntries(c.external)
  }

  predicate IsListed(q: Request, fullname: string) {
    fullname in RankerNames(q.config)
  }

  /** The stored digests of the recommenders that the ranker lists are those of the
      current configuration. */
  predicate StoredDigestsCurrent(q: Request) {
    && (IsListed(q, COLLABORATIVE) ==> q.stores.collaborativeDigest == Ok(q.config.collaborativeHash))
    && forall k :: 0 <= k < |q.config.nonPersonalized| ==>
         var e := q.config.nonPersonalized[k];
         IsListed(q, FullName(NonPersonalized(e.name))) ==> q.stores.nonPersonalizedDigest(e.name) == Ok(e.hash)
  }

  /** They are current or were never stored, which reads as the empty string. */
  predicate StoredDigestsCurrentOrMissing(q: Request) {
    && (IsListed(q, COLLABORATIVE) ==> q.stores.collaborativeDigest in [Ok(q.config.collaborativeHash), Ok("")])
    && forall k :: 0 <= k < |q.config.nonPersonalized| ==>
         var e := q.config.nonPersonalized[k];
         IsListed(q, FullName(NonPersonalized(e.name))) ==>
           q.stores.nonPersonalizedDigest(e.name) in [Ok(e.hash), Ok("")]
  }

  lemma {:induction false} FindUnique(entries: seq<Entry>, k: nat)
    requires UniqueEntries(entries) && k < |entries|
    ensures Find(entries, entries[k].name) == Some(entries[k])
  {
    if k > 0 {
      assert entries[0].name != entries[k].name;
      FindUnique(entries[1..], k - 1);
    }
  }

  /** Which section a position of the list of all recommenders belongs to. */
  lemma RegisteredAt(c: Config, k: nat) returns (s: Section, i: nat, es: seq<Entry>)
    requires k < |Registered(c)| - 2
    ensures es == SectionEntries(c, s)
    ensures i < |es| && Registered(c)[k] == Register(s, es[i])
    ensures k == i + match s
      case PopularSection => 0
      case ItemSection => |c.nonPersonalized|
      case UserSection => |c.nonPersonalized| + |c.itemToItem|
      case ExternalSection => |c.nonPersonalized| + |c.itemToItem| + |c.userToUser|
  {
    var a, b, u := |c.nonPersonalized|, |c.itemToItem|, |c.userToUser|;
    if k < a {
      s, i, es := PopularSection, k, c.nonPersonalized;
    } else if k < a + b {
      s, i, es := ItemSection, k - a, c.itemToItem;
    } else if k < a + b + u {
      s, i, es := UserSection, k - a - b, c.userToUser;
    } else {
      s, i, es := ExternalSection, k - a - b - u, c.external;
    }
  }

  /** With unique names and current stored digests every listed recommender answers
      with its own hash. */
  lemma DigestIsHash(q: Request, k: nat)
    requires UniqueNames(q.config) && StoredDigestsCurrent(q) && k < |Registered(q.config)|
    requires IsListed(q, Registered(q.config)[k].fullname)
    ensures DigestOf(q, Registered(q.config)[k].fullname) == Registered(q.config)[k].hash
  {
    var all := Registered(q.config);
    if k == |all| - 1 {
      ParseFullName(Latest);
    } else if k == |all| - 2 {
      ParseFullName(Collaborative);
    } else {
      var s, i, es := RegisteredAt(q.config, k);
      SectionDigest(q, s, es, i);
    }
  }

  lemma SectionDigest(q: Request, s: Section, es: seq<Entry>, i: nat)
    requires UniqueNames(q.config) && StoredDigestsCurrent(q) && es == SectionEntries(q.config, s) && i < |es|
    requires IsListed(q, Register(s, es[i]).fullname)
    ensures DigestOf(q, Register(s, es[i]).fullname) == es[i].hash
  {
    ParseFullName(SectionKind(s, es[i].name));
    FindUnique(es, i);
  }

  lemma FullNamesDistinct(c: Config)
    requires UniqueNames(c)
    ensures NoRepeats(FullNames(Registered(c)))
  {
    var all := Registered(c);
    forall j, k | 0 <= j < k < |all|
      ensures all[j].fullname != all[k].fullname
    {
      ParseFullName(Latest);
      ParseFullName(Collaborative);
      if j < |all| - 2 {
        var s, i, es := RegisteredAt(c, j);
        ParseFullName(SectionKind(s, es[i].name));
        if k < |all| - 2 {
          var s', i', es' := RegisteredAt(c, k);
          ParseFullName(SectionKind(s', es'[i'].name));
        }
      }
    }
  }

  lemma {:induction false} SelectedWithout(r: seq<Registration>, selected: set<string>, name: string)
    requires forall k :: 0 <= k < |r| ==> r[k].fullname != name
    ensures SelectedHashes(r, selected) == SelectedHashes(r, selected - {name})
  {
    if r != [] {
      SelectedWithout(r[..|r| - 1], selected, name);
    }
  }

  /** Asking each selected recommender once yields the selected hashes in some order. */
  lemma {:induction false} DigestsAreHashes(q: Request, r: seq<Registration>, names: seq<string>)
    requires NoRepeats(FullNames(r)) && NoRepeats(names)
    requires forall k :: 0 <= k < |r| && r[k].fullname in names ==> DigestOf(q, r[k].fullname) == r[k].hash
    requires Members(names) <= Members(FullNames(r))
    ensures multiset(DigestsOf(q, names)) == multiset(SelectedHashes(r, Members(names)))
    decreases |r|
  {
    if r == [] {
      HeadIsMember(names);
    } else {
      var front, last := r[..|r| - 1], r[|r| - 1];
      assert FullNames(r) == FullNames(front) + [last.fullname];
      var rest := names;
      if last.fullname in names {
        var j :| 0 <= j < |names| && names[j] == last.fullname;
        rest := names[..j] + names[j + 1..];
        WithoutName(names, j);
        DigestsWithout(q, names, j);
        FrontLacksLast(r);
        SelectedWithout(front, Members(names), last.fullname);
      }
      DigestsAreHashes(q, front, rest);
    }
  }

  lemma FrontLacksLast(r: seq<Registration>)
    requires NoRepeats(FullNames(r)) && r != []
    ensures var front := r[..|r| - 1]; forall k :: 0 <= k < |front| ==> front[k].fullname != r[|r| - 1].fullname
  {
    forall k | 0 <= k < |r| - 1
      ensures r[k].fullname != r[|r| - 1].fullname
    {
      assert FullNames(r)[k] != FullNames(r)[|r| - 1];
    }
  }

  lemma WithoutName(names: seq<string>, j: nat)
    requires j < |names| && NoRepeats(names)
    ensures NoRepeats(names[..j] + names[j + 1..])
    ensures Members(names[..j] + names[j + 1..]) == Members(names) - {names[j]}
  {
    var rest := names[..j] + names[j + 1..];
    forall s
      ensures s in Members(rest) <==> s in Members(names) - {names[j]}
    {
      if s in names && s != names[j] {
        var k :| 0 <= k < |names| && names[k] == s;
        assert s == if k < j then rest[k] else rest[k - 1];
      }
    }
  }

  lemma DigestsWithout(q: Request, names: seq<string>, j: nat)
    requires j < |names|
    ensures multiset(DigestsOf(q, names))
      == multiset(DigestsOf(q, names[..j] + names[j + 1..])) + multiset{DigestOf(q, names[j])}
  {
    var a, b := DigestsOf(q, names[..j]), DigestsOf(q, names[j + 1..]);
    assert DigestsOf(q, names[..j] + names[j + 1..]) == a + b;
    assert DigestsOf(q, names) == a + [DigestOf(q, names[j])] + b;
  }

  predicate Available(c: Config, names: seq<string>) {
    Members(names) <= Members(FullNames(Registered(c)))
  }

  /** The digest the worker gets when it asks all the ranker's recommenders. */
  function ChainDigest(q: Request, exclude: set<string>): string
    requires SelectsTop(q)
  {
    Combine(q.stores.md5, Sequential(q, RankerNames(q.config), exclude, [], [], 0).digests)
  }

  predicate AllAnswer(q: Request, exclude: set<string>)
    requires SelectsTop(q)
  {
    Sequential(q, RankerNames(q.config), exclude, [], [], 0).result.Ok?
  }

  lemma ChainDigestIs(q: Request, exclude: set<string>)
    requires SelectsTop(q) && AllAnswer(q, exclude)
    ensures ChainDigest(q, exclude) == Combine(q.stores.md5, DigestsOf(q, RankerNames(q.config)))
  {
    SequentialDigests(q, RankerNames(q.config), exclude, [], []);
    assert [] + DigestsOf(q, RankerNames(q.config)) == DigestsOf(q, RankerNames(q.config));
  }

  lemma RegisteredDigests(q: Request, names: seq<string>)
    requires UniqueNames(q.config) && StoredDigestsCurrent(q) && Available(q.config, names) && NoRepeats(names)
    requires Members(names) <= Members(RankerNames(q.config))
    ensures multiset(DigestsOf(q, names)) == multiset(SelectedHashes(Registered(q.config), Members(names)))
  {
    FullNamesDistinct(q.config);
    forall k | 0 <= k < |Registered(q.config)| && Registered(q.config)[k].fullname in names
      ensures DigestOf(q, Registered(q.config)[k].fullname) == Registered(q.config)[k].hash
    {
      assert Registered(q.config)[k].fullname in Members(names);
      DigestIsHash(q, k);
    }
    DigestsAreHashes(q, Registered(q.config), names);
  }

  /** The two routes agree if the ranker lists no recommender twice; the order in
      which it lists them does not matter. */
  lemma DigestAgrees(q: Request, exclude: set<string>)
    requires SelectsTop(q) && AllAnswer(q, exclude)
    requires UniqueNames(q.config) && StoredDigestsCurrent(q)
    requires Available(q.config, RankerNames(q.config)) && NoRepeats(RankerNames(q.config))
    ensures ChainDigest(q, exclude) == ConfigHash(q.config, q.stores.md5)
  {
    var names := RankerNames(q.config);
    ChainDigestIs(q, exclude);
    RegisteredDigests(q, names);
    CombineIgnoresOrder(q.stores.md5, DigestsOf(q, names), SelectedHashes(Registered(q.config), Members(names)));
  }

  // ------------------------------------------------------------------
  // When they cannot agree
  // ------------------------------------------------------------------

  function Deduplicated(names: seq<string>): (r: seq<string>)
    ensures NoRepeats(r) && Members(r) == Members(names)
  {
    if names == [] then []
    else
      var front, last := names[..|names| - 1], names[|names| - 1];
      assert names == front + [last];
      MembersAppend(front, last);
      MembersAppend(Deduplicated(front), last);
      if last in front then Deduplicated(front)
      else
        assert last !in Members(Deduplicated(front));
        Deduplicated(front) + [last]
  }

  lemma MembersAppend(names: seq<string>, s: string)
    ensures Members(names + [s]) == Members(names) + {s}
    ensures s in names ==> Members(names) == Members(names) + {s}
  {
  }

  lemma {:induction false} RepeatsAreLonger(q: Request, names: seq<string>)
    requires forall k :: 0 <= k < |names| ==> DigestOf(q, names[k]) != ""
    ensures TotalLength(DigestsOf(q, Deduplicated(names))) <= TotalLength(DigestsOf(q, names))
    ensures !NoRepeats(names) ==> TotalLength(DigestsOf(q, Deduplicated(names))) < TotalLength(DigestsOf(q, names))
  {
    if names != [] {
      var front, last := names[..|names| - 1], names[|names| - 1];
      RepeatsAreLonger(q, front);
      DigestsOfLast(q, names);
      if last !in front {
        DigestsOfLast(q, Deduplicated(front) + [last]);
        assert (Deduplicated(front) + [last])[..|Deduplicated(front)|] == Deduplicated(front);
        FrontRepeats(names);
      }
    }
  }

  lemma DigestsOfLast(q: Request, names: seq<string>)
    requires names != []
    ensures TotalLength(DigestsOf(q, names))
      == TotalLength(DigestsOf(q, names[..|names| - 1])) + |DigestOf(q, names[|names| - 1])|
  {
    assert DigestsOf(q, names)[..|names| - 1] == DigestsOf(q, names[..|names| - 1]);
  }

  lemma FrontRepeats(names: seq<string>)
    requires names != [] && names[|names| - 1] !in names[..|names| - 1]
    ensures NoRepeats(names[..|names| - 1]) ==> NoRepeats(names)
  {
    forall i, j | 0 <= i < j < |names|
      ensures NoRepeats(names[..|names| - 1]) ==> names[i] != names[j]
    {
      if j == |names| - 1 {
        assert names[i] == names[..|names| - 1][i];
      }
    }
  }

  lemma AvailableDigest(q: Request, names: seq<string>, k: nat)
    requires UniqueNames(q.config) && StoredDigestsCurrent(q) && Available(q.config, names) && k < |names|
    requires IsListed(q, names[k])
    requires forall j :: 0 <= j < |Registered(q.config)| ==> Registered(q.config)[j].hash != ""
    ensures DigestOf(q, names[k]) != ""
  {
    assert names[k] in Members(names);
    var j :| 0 <= j < |FullNames(Registered(q.config))| && FullNames(Registered(q.config))[j] == names[k];
    DigestIsHash(q, j);
  }

  /** Without hash collisions the routes agree exactly if no recommender is listed
      twice: a repeated one makes every cached recommendation stale at once. */
  lemma DigestAgreesIffNoRepeats(q: Request, exclude: set<string>)
    requires SelectsTop(q) && AllAnswer(q, exclude)
    requires UniqueNames(q.config) && StoredDigestsCurrent(q) && Available(q.config, RankerNames(q.config))
    requires forall x, y :: q.stores.md5(x) == q.stores.md5(y) ==> x == y
    requires forall j :: 0 <= j < |Registered(q.config)| ==> Registered(q.config)[j].hash != ""
    ensures ChainDigest(q, exclude) == ConfigHash(q.config, q.stores.md5) <==> NoRepeats(RankerNames(q.config))
  {
    var names := RankerNames(q.config);
    if NoRepeats(names) {
      DigestAgrees(q, exclude);
    } else {
      forall k | 0 <= k < |names|
        ensures DigestOf(q, names[k]) != ""
      {
        AvailableDigest(q, names, k);
      }
      RepeatsAreLonger(q, names);
      LengthsDecide(q, exclude, Deduplicated(names));
    }
  }

  /** `once` lists the ranker's recommenders without repeats, so its digests are as
      long as what the configuration hashes. */
  lemma LengthsDecide(q: Request, exclude: set<string>, once: seq<string>)
    requires SelectsTop(q) && AllAnswer(q, exclude)
    requires UniqueNames(q.config) && StoredDigestsCurrent(q) && Available(q.config, RankerNames(q.config))
    requires forall x, y :: q.stores.md5(x) == q.stores.md5(y) ==> x == y
    requires NoRepeats(once) && Members(once) == Members(RankerNames(q.config))
    ensures ChainDigest(q, exclude) == ConfigHash(q.config, q.stores.md5) ==>
      TotalLength(DigestsOf(q, RankerNames(q.config))) == TotalLength(DigestsOf(q, once))
  {
    var names, hashes := RankerNames(q.config), SelectedHashes(Registered(q.config), Members(once));
    ChainDigestIs(q, exclude);
    RegisteredDigests(q, once);
    TotalLengthOfMultiset(DigestsOf(q, once), hashes);
    if ChainDigest(q, exclude) == ConfigHash(q.config, q.stores.md5) {
      CombineKeepsLength(q.stores.md5, DigestsOf(q, names), hashes);
    }
  }

  // ------------------------------------------------------------------
  // Missing digests
  // ------------------------------------------------------------------

  /** The request with every stored digest current. */
  function WithStoredDigests(q: Request): Request {
    q.(stores := q.stores.(
      collaborativeDigest := Ok(q.config.collaborativeHash),
      nonPersonalizedDigest := name => StoredHash(q.config, name)))
  }

  function StoredHash(c: Config, name: string): Outcome<string> {
    var e := Find(c.nonPersonalized, name);
    if e.Some? then Ok(e.value.hash) else Ok("")
  }

  lemma StoredDigestsAreCurrent(q: Request)
    requires UniqueNames(q.config)
    ensures StoredDigestsCurrent(WithStoredDigests(q))
  {
    forall k | 0 <= k < |q.config.nonPersonalized|
      ensures StoredHash(q.config, q.config.nonPersonalized[k].name) == Ok(q.config.nonPersonalized[k].hash)
    {
      FindUnique(q.config.nonPersonalized, k);
    }
  }

  /** A listed recommender answers with its hash unless its digest is missing. */
  lemma DigestIsHashOrEmpty(q: Request, k: nat)
    requires UniqueNames(q.config) && StoredDigestsCurrentOrMissing(q) && k < |Registered(q.config)|
    requires IsListed(q, Registered(q.config)[k].fullname)
    ensures DigestOf(q, Registered(q.config)[k].fullname) in [Registered(q.config)[k].hash, ""]
  {
    var all := Registered(q.config);
    if k == |all| - 1 {
      ParseFullName(Latest);
    } else if k == |all| - 2 {
      ParseFullName(Collaborative);
    } else {
      var s, i, es := RegisteredAt(q.config, k);
      SectionDigestOrEmpty(q, s, es, i);
    }
  }

  lemma SectionDigestOrEmpty(q: Request, s: Section, es: seq<Entry>, i: nat)
    requires UniqueNames(q.config) && StoredDigestsCurrentOrMissing(q) && es == SectionEntries(q.config, s) && i < |es|
    requires IsListed(q, Register(s, es[i]).fullname)
    ensures DigestOf(q, Register(s, es[i]).fullname) in [es[i].hash, ""]
  {
    ParseFullName(SectionKind(s, es[i].name));
    FindUnique(es, i);
  }

  /** The digest that makes the stored digests of a request not current is missing. */
  lemma SomeDigestMissing(q: Request) returns (fullname: string)
    requires UniqueNames(q.config) && StoredDigestsCurrentOrMissing(q) && !StoredDigestsCurrent(q)
    ensures IsListed(q, fullname) && DigestOf(q, fullname) == ""
  {
    if IsListed(q, COLLABORATIVE) && q.stores.collaborativeDigest != Ok(q.config.collaborativeHash) {
      ParseFullName(Collaborative);
      fullname := COLLABORATIVE;
    } else {
      var k :| 0 <= k < |q.config.nonPersonalized|
        && IsListed(q, FullName(NonPersonalized(q.config.nonPersonalized[k].name)))
        && q.stores.nonPersonalizedDigest(q.config.nonPersonalized[k].name) != Ok(q.config.nonPersonalized[k].hash);
      ParseFullName(NonPersonalized(q.config.nonPersonalized[k].name));
      fullname := FullName(NonPersonalized(q.config.nonPersonalized[k].name));
    }
  }

  /** A list whose strings are no longer than those of another, one of them shorter,
      has fewer bytes. */
  lemma {:induction false} ShorterTotal(a: seq<string>, b: seq<string>)
    requires |a| == |b| && forall k :: 0 <= k < |a| ==> |a[k]| <= |b[k]|
    ensures TotalLength(a) <= TotalLength(b)
    ensures (exists k :: 0 <= k < |a| && |a[k]| < |b[k]|) ==> TotalLength(a) < TotalLength(b)
  {
    if a != [] {
      ShorterTotal(a[..|a| - 1], b[..|b| - 1]);
    }
  }

  lemma MissingIsShorter(q: Request)
    requires UniqueNames(q.config) && StoredDigestsCurrentOrMissing(q) && !StoredDigestsCurrent(q)
    requires Available(q.config, RankerNames(q.config))
    requires forall j :: 0 <= j < |Registered(q.config)| ==> Registered(q.config)[j].hash != ""
    ensures var names := RankerNames(q.config);
      TotalLength(DigestsOf(q, names)) < TotalLength(DigestsOf(WithStoredDigests(q), names))
  {
    var q', names := WithStoredDigests(q), RankerNames(q.config);
    StoredDigestsAreCurrent(q);
    forall k | 0 <= k < |names|
      ensures DigestOf(q', names[k]) != "" && |DigestOf(q, names[k])| <= |DigestOf(q', names[k])|
    {
      ListedDigest(q, k);
    }
    var missing := SomeDigestMissing(q);
    var k :| 0 <= k < |names| && names[k] == missing;
    assert |DigestsOf(q, names)[k]| < |DigestsOf(q', names)[k]|;
    ShorterTotal(DigestsOf(q, names), DigestsOf(q', names));
  }

  lemma ListedDigest(q: Request, k: nat)
    requires UniqueNames(q.config) && StoredDigestsCurrentOrMissing(q) && k < |RankerNames(q.config)|
    requires Available(q.config, RankerNames(q.config)) && StoredDigestsCurrent(WithStoredDigests(q))
    requires forall j :: 0 <= j < |Registered(q.config)| ==> Registered(q.config)[j].hash != ""
    ensures var name := RankerNames(q.config)[k];
      && DigestOf(WithStoredDigests(q), name) != ""
      && |DigestOf(q, name)| <= |DigestOf(WithStoredDigests(q), name)|
  {
    var name, all := RankerNames(q.config)[k], Registered(q.config);
    assert name in Members(RankerNames(q.config));
    var j :| 0 <= j < |FullNames(all)| && FullNames(all)[j] == name;
    assert IsListed(q, all[j].fullname) && IsListed(WithStoredDigests(q), all[j].fullname);
    DigestIsHash(WithStoredDigests(q), j);
    DigestIsHashOrEmpty(q, j);
  }

  /** If the stored digests that matter are current or missing, the routes agree if
      and only if none is missing. */
  lemma DigestAgreesIffNoneMissing(q: Request, exclude: set<string>)
    requires SelectsTop(q) && AllAnswer(q, exclude)
    requires UniqueNames(q.config) && StoredDigestsCurrentOrMissing(q)
    requires Available(q.config, RankerNames(q.config)) && NoRepeats(RankerNames(q.config))
    requires forall x, y :: q.stores.md5(x) == q.stores.md5(y) ==> x == y
    requires forall j :: 0 <= j < |Registered(q.config)| ==> Registered(q.config)[j].hash != ""
    ensures ChainDigest(q, exclude) == ConfigHash(q.config, q.stores.md5) <==> StoredDigestsCurrent(q)
  {
    if StoredDigestsCurrent(q) {
      DigestAgrees(q, exclude);
    } else {
      var names := RankerNames(q.config);
      StoredDigestsAreCurrent(q);
      MissingIsShorter(q);
      RegisteredDigests(WithStoredDigests(q), names);
      OtherLengthDiffers(q, exclude, DigestsOf(WithStoredDigests(q), names));
    }
  }

  lemma OtherLengthDiffers(q: Request, exclude: set<string>, digests: seq<string>)
    requires SelectsTop(q) && AllAnswer(q, exclude)
    requires forall x, y :: q.stores.md5(x) == q.stores.md5(y) ==> x == y
    requires var names := RankerNames(q.config);
      && multiset(digests) == multiset(SelectedHashes(Registered(q.config), Members(names)))
      && TotalLength(DigestsOf(q, names)) != TotalLength(digests)
    ensures ChainDigest(q, exclude) != ConfigHash(q.config, q.stores.md5)
  {
    var names := RankerNames(q.config);
    var hashes := SelectedHashes(Registered(q.config), Members(names));
    ChainDigestIs(q, exclude);
    TotalLengthOfMultiset(digests, hashes);
    if ChainDigest(q, exclude) == ConfigHash(q.config, q.stores.md5) {
      CombineKeepsLength(q.stores.md5, DigestsOf(q, names), hashes);
    }
  }

  /** A user for whom no collaborative digest was ever stored, because the model has
      no factors for the user or the type is "none", is fresh exactly if the ranker
      does not list the collaborative recommender; an empty list includes it. */
  lemma MissingCollaborativeDigest(q: Request, exclude: set<string>)
    requires SelectsTop(q) && AllAnswer(q, exclude)
    requires UniqueNames(q.config) && q.stores.collaborativeDigest == Ok("")
    requires StoredDigestsCurrent(q.(stores := q.stores.(collaborativeDigest := Ok(q.config.collaborativeHash))))
    requires Available(q.config, RankerNames(q.config)) && NoRepeats(RankerNames(q.config))
    requires forall x, y :: q.stores.md5(x) == q.stores.md5(y) ==> x == y
    requires forall j :: 0 <= j < |Registered(q.config)| ==> Registered(q.config)[j].hash != ""
    ensures ChainDigest(q, exclude) == ConfigHash(q.config, q.stores.md5) <==> COLLABORATIVE !in RankerNames(q.config)
  {
    CollaborativeRegistered(q.config);
    OnlyCollaborativeMissing(q);
    DigestAgreesIffNoneMissing(q, exclude);
  }

  lemma CollaborativeRegistered(c: Config)
    requires forall j :: 0 <= j < |Registered(c)| ==> Registered(c)[j].hash != ""
    ensures c.collaborativeHash != ""
  {
    assert Registered(c)[|Sections(c)|].hash == c.collaborativeHash;
  }

  lemma OnlyCollaborativeMissing(q: Request)
    requires q.stores.collaborativeDigest == Ok("") && q.config.collaborativeHash != ""
    requires StoredDigestsCurrent(q.(stores := q.stores.(collaborativeDigest := Ok(q.config.collaborativeHash))))
    ensures StoredDigestsCurrentOrMissing(q)
    ensures StoredDigestsCurrent(q) <==> !IsListed(q, COLLABORATIVE)
  {
    var q' := q.(stores := q.stores.(collaborativeDigest := Ok(q.config.collaborativeHash)));
    assert forall name :: IsListed(q', name) <==> IsListed(q, name);
  }

  // ------------------------------------------------------------------
  // The exact condition
  // ------------------------------------------------------------------

  lemma {:induction false} SelectedHashesFramed(r: seq<Registration>, selected: set<string>)
    requires forall k :: 0 <= k < |r| ==> IsFramed(r[k].hash)
    ensures forall h :: h in SelectedHashes(r, selected) ==> IsFramed(h)
  {
    if r != [] {
      SelectedHashesFramed(r[..|r| - 1], selected);
    }
  }

  /** Whatever the ranker lists and the cache holds, the routes agree if and only if
      the digests that are not missing are the selected hashes, each as often. */
  lemma DigestAgreesExactly(q: Request, exclude: set<string>)
    requires SelectsTop(q) && AllAnswer(q, exclude)
    requires forall x, y :: q.stores.md5(x) == q.stores.md5(y) ==> x == y
    requires forall j :: 0 <= j < |Registered(q.config)| ==> IsFramed(Registered(q.config)[j].hash)
    requires forall d :: d in DigestsOf(q, RankerNames(q.config)) ==> d == "" || IsFramed(d)
    ensures ChainDigest(q, exclude) == ConfigHash(q.config, q.stores.md5)
       <==> multiset(Present(DigestsOf(q, RankerNames(q.config))))
            == multiset(SelectedHashes(Registered(q.config), Members(RankerNames(q.config))))
  {
    var digests := DigestsOf(q, RankerNames(q.config));
    var hashes := SelectedHashes(Registered(q.config), Members(RankerNames(q.config)));
    ChainDigestIs(q, exclude);
    SelectedHashesFramed(Registered(q.config), Members(RankerNames(q.config)));
    PresentFramed(hashes);
    CombineDecides(q.stores.md5, digests, hashes);
  }

  // ------------------------------------------------------------------
  // Validation
  // ------------------------------------------------------------------

  /** What Validate refuses of the lists of recommenders. */
  predicate ValidNames(c: Config, collaborativeIsNone: bool) {
    && UniqueEntries(c.nonPersonalized) && UniqueEntries(c.itemToItem)
    && c.rankerRecommenders != [] && (c.rankerIsNone ==> |c.rankerRecommenders| == 1)
    && Usable(c, collaborativeIsNone, c.rankerRecommenders)
    && Usable(c, collaborativeIsNone, c.fallbackRecommenders)
  }

  /** A name that the ranker or the fallback may list. */
  predicate IsKnown(c: Config, collaborativeIsNone: bool, name: string) {
    || name == "latest" || (name == "collaborative" && !collaborativeIsNone)
    || (exists k :: 0 <= k < |c.nonPersonalized| && name == "non-personalized/" + c.nonPersonalized[k].name)
    || (exists k :: 0 <= k < |c.itemToItem| && name == "item-to-item/" + c.itemToItem[k].name)
    || (exists k :: 0 <= k < |c.userToUser| && name == "user-to-user/" + c.userToUser[k].name)
    || (exists k :: 0 <= k < |c.external| && name == "external/" + c.external[k].name)
  }

  lemma RegisteredIsKnown(c: Config, name: string)
    ensures name in FullNames(Registered(c)) ==> IsKnown(c, false, name)
  {
    if name in FullNames(Registered(c)) {
      var j :| 0 <= j < |Registered(c)| && Registered(c)[j].fullname == name;
      if j < |Registered(c)| - 2 {
        var s, i, es := RegisteredAt(c, j);
        SectionIsKnown(c, s, i);
      }
    }
  }

  lemma SectionIsKnown(c: Config, s: Section, i: nat)
    requires i < |SectionEntries(c, s)|
    ensures IsKnown(c, false, FullName(SectionKind(s, SectionEntries(c, s)[i].name)))
  {
  }

  lemma SectionIsRegistered(c: Config, s: Section, i: nat)
    requires i < |SectionEntries(c, s)|
    ensures FullName(SectionKind(s, SectionEntries(c, s)[i].name)) in FullNames(Registered(c))
  {
    var r, all := Register(s, SectionEntries(c, s)[i]), RegisterAll(s, SectionEntries(c, s));
    assert all[i] == r;
    SectionWithin(c, s, r);
    assert r in Registered(c);
    var j :| 0 <= j < |Registered(c)| && Registered(c)[j] == r;
    assert FullNames(Registered(c))[j] == r.fullname;
  }

  lemma SectionWithin(c: Config, s: Section, r: Registration)
    requires r in RegisterAll(s, SectionEntries(c, s))
    ensures r in Sections(c)
  {
    var a, b := RegisterAll(PopularSection, c.nonPersonalized), RegisterAll(ItemSection, c.itemToItem);
    var u, e := RegisterAll(UserSection, c.userToUser), RegisterAll(ExternalSection, c.external);
    assert r in a || r in b || r in u || r in e;
    assert Sections(c) == a + b + u + e;
  }

  lemma KnownIsRegistered(c: Config, name: string)
    requires IsKnown(c, false, name)
    ensures name in FullNames(Registered(c))
  {
    if name == COLLABORATIVE || name == LATEST {
      NamesOfConfig(c);
      assert name in Members(FullNames(Registered(c)));
    } else if k :| 0 <= k < |c.nonPersonalized| && name == "non-personalized/" + c.nonPersonalized[k].name {
      SectionIsRegistered(c, PopularSection, k);
    } else if k :| 0 <= k < |c.itemToItem| && name == "item-to-item/" + c.itemToItem[k].name {
      SectionIsRegistered(c, ItemSection, k);
    } else if k :| 0 <= k < |c.userToUser| && name == "user-to-user/" + c.userToUser[k].name {
      SectionIsRegistered(c, UserSection, k);
    } else {
      var k :| 0 <= k < |c.external| && name == "external/" + c.external[k].name;
      SectionIsRegistered(c, ExternalSection, k);
    }
  }

  lemma OnlyCollaborativeDepends(c: Config, name: string)
    ensures IsKnown(c, true, name) <==> IsKnown(c, false, name) && name != "collaborative"
  {
    ParseFullName(Collaborative);
    if k :| 0 <= k < |c.nonPersonalized| && name == "non-personalized/" + c.nonPersonalized[k].name {
      ParseFullName(NonPersonalized(c.nonPersonalized[k].name));
    } else if k :| 0 <= k < |c.itemToItem| && name == "item-to-item/" + c.itemToItem[k].name {
      ParseFullName(ItemToItem(c.itemToItem[k].name));
    } else if k :| 0 <= k < |c.userToUser| && name == "user-to-user/" + c.userToUser[k].name {
      ParseFullName(UserToUser(c.userToUser[k].name));
    } else if k :| 0 <= k < |c.external| && name == "external/" + c.external[k].name {
      ParseFullName(External(c.external[k].name));
    }
  }

  /** What is accepted, spelled out: unique non-personalized and item-to-item names, a
      ranker that lists something, and one thing only if it is none, and in both
      lists only names that are known. */
  lemma ValidNamesMeaning(c: Config, collaborativeIsNone: bool)
    ensures ValidNames(c, collaborativeIsNone) <==>
      && (forall i, j :: 0 <= i < j < |c.nonPersonalized| ==> c.nonPersonalized[i].name != c.nonPersonalized[j].name)
      && (forall i, j :: 0 <= i < j < |c.itemToItem| ==> c.itemToItem[i].name != c.itemToItem[j].name)
      && 1 <= |c.rankerRecommenders| && (c.rankerIsNone ==> |c.rankerRecommenders| <= 1)
      && (forall n :: n in c.rankerRecommenders ==> IsKnown(c, collaborativeIsNone, n))
      && (forall n :: n in c.fallbackRecommenders ==> IsKnown(c, collaborativeIsNone, n))
  {
    UsableMeaning(c, collaborativeIsNone, c.rankerRecommenders);
    UsableMeaning(c, collaborativeIsNone, c.fallbackRecommenders);
  }

  lemma UsableMeaning(c: Config, collaborativeIsNone: bool, names: seq<string>)
    ensures Usable(c, collaborativeIsNone, names) <==> forall n :: n in names ==> IsKnown(c, collaborativeIsNone, n)
  {
    forall n | n in names
      ensures IsKnown(c, collaborativeIsNone, n) <==>
        n in Members(FullNames(Registered(c))) && (collaborativeIsNone ==> n != COLLABORATIVE)
    {
      RegisteredIsKnown(c, n);
      OnlyCollaborativeDepends(c, n);
      if IsKnown(c, false, n) {
        KnownIsRegistered(c, n);
      }
    }
  }

  predicate Usable(c: Config, collaborativeIsNone: bool, names: seq<string>) {
    Available(c, names) && (collaborativeIsNone ==> COLLABORATIVE !in names)
  }

  method CheckDuplicates(entries: seq<Entry>) returns (ok: bool)
    ensures ok <==> UniqueEntries(entries)
  {
    var names := {};
    for k := 0 to |entries|
      invariant UniqueEntries(entries[..k])
      invariant forall s :: s in names <==> exists j :: 0 <= j < k && entries[j].name == s
    {
      if entries[k].name in names {
        return false;
      }
      names := names + {entries[k].name};
    }
    return true;
  }

  method AddFullNames(s: Section, entries: seq<Entry>, available: set<string>) returns (r: set<string>)
    ensures r == available + Members(FullNames(RegisterAll(s, entries)))
  {
    r := available;
    ghost var all := FullNames(RegisterAll(s, entries));
    for k := 0 to |entries|
      invariant r == available + Members(all[..k])
    {
      assert all[..k + 1] == all[..k] + [all[k]];
      r := r + {FullName(SectionKind(s, entries[k].name))};
    }
    assert all[..|entries|] == all;
  }

  /** The closure checkRecommenders. */
  method CheckRecommenders(available: set<string>, collaborativeIsNone: bool, names: seq<string>) returns (ok: bool)
    ensures ok <==> Members(names) <= available && (collaborativeIsNone ==> COLLABORATIVE !in names)
  {
    for k := 0 to |names|
      invariant Members(names[..k]) <= available && (collaborativeIsNone ==> COLLABORATIVE !in names[..k])
    {
      assert names[..k + 1] == names[..k] + [names[k]];
      assert names[k] in Members(names);
      if names[k] == COLLABORATIVE && collaborativeIsNone {
        return false;
      }
      if names[k] !in available {
        return false;
      }
    }
    assert names[..|names|] == names;
    return true;
  }

  method SectionNames(c: Config) returns (available: set<string>)
    ensures available == Members(FullNames(Sections(c)))
  {
    available := AddFullNames(PopularSection, c.nonPersonalized, {});
    available := AddFullNames(ItemSection, c.itemToItem, available);
    available := AddFullNames(UserSection, c.userToUser, available);
    available := AddFullNames(ExternalSection, c.external, available);
    NamesOfSections(c);
  }

  lemma NamesOfSections(c: Config)
    ensures Members(FullNames(Sections(c)))
         == {} + Members(FullNames(RegisterAll(PopularSection, c.nonPersonalized)))
          + Members(FullNames(RegisterAll(ItemSection, c.itemToItem)))
          + Members(FullNames(RegisterAll(UserSection, c.userToUser)))
          + Members(FullNames(RegisterAll(ExternalSection, c.external)))
  {
    var a := FullNames(RegisterAll(PopularSection, c.nonPersonalized));
    var b := FullNames(RegisterAll(ItemSection, c.itemToItem));
    var u, e := FullNames(RegisterAll(UserSection, c.userToUser)), FullNames(RegisterAll(ExternalSection, c.external));
    assert FullNames(Sections(c)) == a + b + u + e;
  }

  lemma NamesOfConfig(c: Config)
    ensures Members(FullNames(Registered(c))) == Members(FullNames(Sections(c))) + {COLLABORATIVE, LATEST}
    ensures COLLABORATIVE !in Members(FullNames(Sections(c)))
  {
    assert FullNames(Registered(c)) == FullNames(Sections(c)) + [COLLABORATIVE, LATEST];
    forall k | 0 <= k < |Sections(c)|
      ensures Sections(c)[k].fullname != COLLABORATIVE
    {
      var s, i, es := RegisteredAt(c, k);
      ParseFullName(SectionKind(s, es[i].name));
      ParseFullName(Collaborative);
    }
  }

  method AvailableNames(c: Config, collaborativeIsNone: bool) returns (available: set<string>)
    ensures available == Members(FullNames(Registered(c))) - (if collaborativeIsNone then {COLLABORATIVE} else {})
  {
    available := SectionNames(c);
    available := available + {LATEST};
    NamesOfConfig(c);
    if !collaborativeIsNone {
      available := available + {COLLABORATIVE};
    }
  }

  /** The checks of Validate that concern the recommenders. */
  method Validate(c: Config, collaborativeIsNone: bool) returns (ok: bool)
    ensures ok <==> ValidNames(c, collaborativeIsNone)
  {
    ok := CheckDuplicates(c.nonPersonalized);
    if !ok {
      return;
    }
    ok := CheckDuplicates(c.itemToItem);
    if !ok {
      return;
    }
    var available := AvailableNames(c, collaborativeIsNone);
    if c.rankerRecommenders == [] || (c.rankerIsNone && |c.rankerRecommenders| > 1) {
      return false;
    }
    ok := CheckRecommenders(available, collaborativeIsNone, c.rankerRecommenders);
    if !ok {
      return;
    }
    ok := CheckRecommenders(available, collaborativeIsNone, c.fallbackRecommenders);
  }

  // ------------------------------------------------------------------
  // Freshness
  // ------------------------------------------------------------------

  const ZERO_TIME := 0

  /** The entries of one user in the cache, as the queries for them are answered. */
  datatype UserCache = UserCache(scores: Outcome<map<string, int>>, digest: Outcome<string>,
                                 updateTime: Outcome<int>, activeTime: Outcome<int>)

  datatype Periods = Periods(cacheExpire: int, rankerCacheExpire: int)

  function ActiveTime(cache: UserCache): int {
    if cache.activeTime.Ok? then cache.activeTime.value else ZERO_TIME
  }

  predicate TimesGood(p: Periods, updated: int, active: int, now: int, later: int) {
    && updated >= now - p.cacheExpire
    && active < updated
    && updated + p.rankerCacheExpire >= later
  }

  predicate IsFresh(cache: UserCache, hash: string, p: Periods, now: int, later: int) {
    && cache.scores.Ok? && cache.scores.value != map[]
    && cache.digest == Ok(hash) && hash != ""
    && cache.updateTime.Ok? && TimesGood(p, cache.updateTime.value, ActiveTime(cache), now, later)
  }

  /** The clock is read at `now` and again at `later`. */
  method CheckRecommendCacheOutOfDate(cache: UserCache, c: Config, md5: string -> string, p: Periods, now: int,
                                      later: int)
    returns (stale: bool)
    ensures stale <==> !IsFresh(cache, ConfigHash(c, md5), p, now, later)
    ensures cache.scores.Failed? || cache.digest.Failed? || cache.updateTime.Failed? ==> stale
    ensures cache.scores.Ok? && cache.digest.Ok? && cache.updateTime.Ok? ==>
      var updated := cache.updateTime.value;
      (stale <==> (cache.scores.value == map[] || cache.digest.value == "" || cache.digest.value != ConfigHash(c, md5)
                   || updated < now - p.cacheExpire
                   || updated <= (if cache.activeTime.Ok? then cache.activeTime.value else 0)
                   || updated + p.rankerCacheExpire < later))
  {
    if cache.scores.Failed? {
      return true;
    } else if |cache.scores.value| == 0 {
      return true;
    }
    if cache.digest.Failed? {
      return true;
    }
    if cache.digest.value == "" {
      return true;
    }
    var hash := Hash(c, md5);
    if cache.digest.value != hash {
      return true;
    }
    var activeTime := ZERO_TIME;
    if cache.activeTime.Ok? {
      activeTime := cache.activeTime.value;
    }
    if cache.updateTime.Failed? {
      return true;
    }
    var recommendTime := cache.updateTime.value;
    if recommendTime < now - p.cacheExpire {
      return true;
    }
    if activeTime < recommendTime {
      var timeoutTime := recommendTime + p.rankerCacheExpire;
      return timeoutTime < later;
    }
    return true;
  }

  /** The cached scores, digest and time of one user. */
  class RecommendCache {
    var scores: map<string, int>
    var digest: string
    var updateTime: int

    /** The end of the worker's loop for one user: add the new scores, delete older
        ones, record digest and time. A store call that fails ends it. */
    method CacheRecommendation(results: seq<Score>, recommendTime: int, newDigest: string, addFails: bool,
                               deleteFails: bool, setFails: bool)
      modifies this
      ensures addFails ==> scores == old(scores)
      ensures !addFails && deleteFails ==>
        scores == map id | id in old(scores).Keys + Ids(results) ::
          if id in Ids(results) then recommendTime else old(scores)[id]
      ensures !addFails && !deleteFails ==>
        && (forall id :: id in scores ==> scores[id] >= recommendTime)
        && (forall id :: id in scores <==>
            id in Ids(results) || (id in old(scores) && old(scores)[id] >= recommendTime))
      ensures if addFails || deleteFails || setFails then digest == old(digest) && updateTime == old(updateTime)
              else digest == newDigest && updateTime == recommendTime
    {
      if addFails {
        return;
      }
      WithScoresFacts(scores, results, recommendTime);
      scores := WithScores(scores, results, recommendTime);
      if deleteFails {
        return;
      }
      scores := map id | id in scores && scores[id] >= recommendTime :: scores[id];
      if setFails {
        return;
      }
      digest, updateTime := newDigest, recommendTime;
    }

    function Value(activeTime: Outcome<int>): UserCache
      reads this
    {
      UserCache(Ok(scores), Ok(digest), Ok(updateTime), activeTime)
    }
  }

  function WithScores(scores: map<string, int>, results: seq<Score>, time: int): map<string, int> {
    scores + map id | id in Ids(results) :: time
  }

  lemma WithScoresFacts(scores: map<string, int>, results: seq<Score>, time: int)
    ensures forall id :: id in WithScores(scores, results, time) <==> id in Ids(results) || id in scores
    ensures forall id :: id in Ids(results) ==> WithScores(scores, results, time)[id] == time
  {
  }

  /** The cache after a non-empty recommendation with the digest of the chain was
      written at time `t`. */
  predicate JustWritten(q: Request, exclude: set<string>, results: seq<Score>, t: int, cache: UserCache)
    requires SelectsTop(q)
  {
    && cache.scores.Ok? && results != [] && Ids(results) <= cache.scores.value.Keys
    && cache.digest == Ok(ChainDigest(q, exclude)) && cache.updateTime == Ok(t)
  }

  lemma WrittenIsFreshIff(q: Request, exclude: set<string>, results: seq<Score>, t: int, cache: UserCache,
                          p: Periods, now: int, later: int)
    requires SelectsTop(q) && JustWritten(q, exclude, results, t, cache)
    requires forall x :: q.stores.md5(x) != ""
    ensures IsFresh(cache, ConfigHash(q.config, q.stores.md5), p, now, later) <==>
      && ChainDigest(q, exclude) == ConfigHash(q.config, q.stores.md5)
      && t >= now - p.cacheExpire && t + p.rankerCacheExpire >= later
      && if cache.activeTime.Ok? then cache.activeTime.value < t else 0 < t
  {
    assert results[0] in results && results[0].id in Ids(results);
    assert results[0].id in cache.scores.value;
  }

  /** A non-empty recommendation that was just written is fresh for as long as the
      times allow, and no longer: until it expires or the user is active again. */
  lemma FreshAfterRecommend(q: Request, exclude: set<string>, results: seq<Score>, t: int, cache: UserCache,
                            p: Periods, now: int, later: int)
    requires SelectsTop(q) && AllAnswer(q, exclude)
    requires UniqueNames(q.config) && StoredDigestsCurrent(q)
    requires Available(q.config, RankerNames(q.config)) && NoRepeats(RankerNames(q.config))
    requires forall x :: q.stores.md5(x) != ""
    requires JustWritten(q, exclude, results, t, cache)
    ensures IsFresh(cache, ConfigHash(q.config, q.stores.md5), p, now, later) <==>
      && t >= now - p.cacheExpire && t + p.rankerCacheExpire >= later
      && if cache.activeTime.Ok? then cache.activeTime.value < t else 0 < t
  {
    DigestAgrees(q, exclude);
    WrittenIsFreshIff(q, exclude, results, t, cache, p, now, later);
  }

  /** Without hash collisions, whatever the ranker lists and the cache of digests held,
      a recommendation that was just written is stale at once unless the present
      digests are the selected hashes, each as often; then only the times decide. */
  lemma FreshIffDigestsAgree(q: Request, exclude: set<string>, results: seq<Score>, t: int, cache: UserCache,
                             p: Periods, now: int, later: int)
    requires SelectsTop(q) && AllAnswer(q, exclude)
    requires forall x, y :: q.stores.md5(x) == q.stores.md5(y) ==> x == y
    requires forall x :: q.stores.md5(x) != ""
    requires forall j :: 0 <= j < |Registered(q.config)| ==> IsFramed(Registered(q.config)[j].hash)
    requires forall d :: d in DigestsOf(q, RankerNames(q.config)) ==> d == "" || IsFramed(d)
    requires JustWritten(q, exclude, results, t, cache)
    ensures IsFresh(cache, ConfigHash(q.config, q.stores.md5), p, now, later) <==>
      && multiset(Present(DigestsOf(q, RankerNames(q.config))))
         == multiset(SelectedHashes(Registered(q.config), Members(RankerNames(q.config))))
      && t >= now - p.cacheExpire && t + p.rankerCacheExpire >= later
      && if cache.activeTime.Ok? then cache.activeTime.value < t else 0 < t
  {
    DigestAgreesExactly(q, exclude);
    WrittenIsFreshIff(q, exclude, results, t, cache, p, now, later);
  }

  /** A configuration with other hashes, each hash hidden by the hash function, makes
      what was cached under the first one stale. */
  lemma OtherConfigurationIsStale(c: Config, d: Config, md5: string -> string, cache: UserCache, p: Periods,
                                  now: int, later: int)
    requires forall x, y :: md5(x) == md5(y) ==> x == y
    requires forall j :: 0 <= j < |Registered(c)| ==> IsFramed(Registered(c)[j].hash)
    requires forall j :: 0 <= j < |Registered(d)| ==> IsFramed(Registered(d)[j].hash)
    requires cache.digest == Ok(ConfigHash(c, md5))
    requires multiset(SelectedHashes(Registered(c), Members(RankerNames(c))))
          != multiset(SelectedHashes(Registered(d), Members(RankerNames(d))))
    ensures !IsFresh(cache, ConfigHash(d, md5), p, now, later)
  {
    var before, after := SelectedHashes(Registered(c), Members(RankerNames(c))),
                      SelectedHashes(Registered(d), Members(RankerNames(d)));
    SelectedHashesFramed(Registered(c), Members(RankerNames(c)));
    SelectedHashesFramed(Registered(d), Members(RankerNames(d)));
    PresentFramed(before);
    PresentFramed(after);
    CombineDecides(md5, before, after);
  }
}
