/** The chain of recommenders that answers a request: sources are asked one after
    the other, each leaves out what is already excluded, and what a source returns
    is excluded from then on.

    Scores are integers. The databases, the neighbour queries, the scripts and the
    choice of the best entries of a score table are fixed functions for the
    duration of one request. */
module Recommender {
  import opened Collections
  import opened Digest

  datatype Outcome<+T> = Ok(value: T) | Failed

  datatype Score = Score(id: string, value: int, categories: seq<string>)

  /** A feedback of the user, with the verdict of the configured type expressions. */
  datatype Feedback = Feedback(item: string, negative: bool, positive: bool)

  datatype Item = Item(id: string, categories: seq<string>)

  /** A configured recommender and the hash of its configuration. */
  datatype Entry = Entry(name: string, hash: string)

  datatype Config = Config(
    nonPersonalized: seq<Entry>, itemToItem: seq<Entry>, userToUser: seq<Entry>, external: seq<Entry>,
    collaborativeHash: string, unnamedExternalHash: string,
    enableReplacement: bool, rankerIsNone: bool, cacheSize: nat, contextSize: int,
    rankerRecommenders: seq<string>, fallbackRecommenders: seq<string>)

  datatype Stores = Stores(
    cached: Outcome<seq<Score>>,
    latest: Outcome<seq<Score>>,
    nonPersonalized: string -> Outcome<seq<Score>>,
    nonPersonalizedDigest: string -> Outcome<string>,
    collaborative: Outcome<seq<Score>>,
    collaborativeDigest: Outcome<string>,
    neighbors: (string, string) -> Outcome<seq<Score>>,
    similarUsers: string -> Outcome<seq<Score>>,
    positiveItemsOf: string -> Outcome<seq<string>>,
    visibleItems: seq<string> -> Outcome<seq<Item>>,
    pull: string -> Outcome<seq<string>>,
    top: map<string, int> -> seq<string>,
    md5: string -> string)

  datatype Request = Request(config: Config, stores: Stores, online: bool, categories: seq<string>,
                             history: seq<Feedback>)

  /** What a source answers. */
  datatype Answer = Answer(scores: seq<Score>, digest: string)

  // ------------------------------------------------------------------
  // Names
  // ------------------------------------------------------------------

  const LATEST := "latest"
  const COLLABORATIVE := "collaborative"
  const NON_PERSONALIZED := "non-personalized/"
  const ITEM_TO_ITEM := "item-to-item/"
  const USER_TO_USER := "user-to-user/"
  const EXTERNAL := "external/"

  datatype Kind = Collaborative | Latest | NonPersonalized(name: string) | ItemToItem(name: string)
                | UserToUser(name: string) | External(name: string)

  function Parse(fullname: string): Option<Kind> {
    if fullname == COLLABORATIVE then Some(Collaborative)
    else if fullname == LATEST then Some(Latest)
    else if NON_PERSONALIZED <= fullname then Some(NonPersonalized(fullname[|NON_PERSONALIZED|..]))
    else if ITEM_TO_ITEM <= fullname then Some(ItemToItem(fullname[|ITEM_TO_ITEM|..]))
    else if USER_TO_USER <= fullname then Some(UserToUser(fullname[|USER_TO_USER|..]))
    else if EXTERNAL <= fullname then Some(External(fullname[|EXTERNAL|..]))
    else None
  }

  function FullName(k: Kind): string {
    match k
    case Collaborative => COLLABORATIVE
    case Latest => LATEST
    case NonPersonalized(name) => NON_PERSONALIZED + name
    case ItemToItem(name) => ITEM_TO_ITEM + name
    case UserToUser(name) => USER_TO_USER + name
    case External(name) => EXTERNAL + name
  }

  /** Full names are unambiguous, whatever the configured names contain. */
  lemma ParseFullName(k: Kind)
    ensures Parse(FullName(k)) == Some(k)
  {
    var s := FullName(k);
    match k
    case Collaborative =>
    case Latest =>
    case NonPersonalized(name) =>
      assert s[0] == 'n' && s[|NON_PERSONALIZED|..] == name;
    case ItemToItem(name) =>
      assert s[0] == 'i' && s[|ITEM_TO_ITEM|..] == name;
    case UserToUser(name) =>
      assert s[0] == 'u' && s[|USER_TO_USER|..] == name;
    case External(name) =>
      assert s[0] == 'e' && s[|EXTERNAL|..] == name;
  }

  lemma ParseSpelledOut(name: string)
    ensures Parse("collaborative") == Some(Collaborative) && Parse("latest") == Some(Latest)
    ensures Parse("non-personalized/" + name) == Some(NonPersonalized(name))
    ensures Parse("item-to-item/" + name) == Some(ItemToItem(name))
    ensures Parse("user-to-user/" + name) == Some(UserToUser(name))
    ensures Parse("external/" + name) == Some(External(name))
  {
    ParseFullName(Collaborative);
    ParseFullName(Latest);
    ParseFullName(NonPersonalized(name));
    ParseFullName(ItemToItem(name));
    ParseFullName(UserToUser(name));
    ParseFullName(External(name));
  }

  // ------------------------------------------------------------------
  // Sources
  // ------------------------------------------------------------------

  /** The first entry of that name. */
  function Find(entries: seq<Entry>, name: string): Option<Entry> {
    if entries == [] then None
    else if entries[0].name == name then Some(entries[0])
    else Find(entries[1..], name)
  }

  lemma {:induction false} FindFirst(entries: seq<Entry>, name: string)
    ensures Find(entries, name).None? <==> forall k :: 0 <= k < |entries| ==> entries[k].name != name
    ensures Find(entries, name).Some? ==>
      exists k :: 0 <= k < |entries| && entries[k].name == name && Find(entries, name).value == entries[k]
                  && forall j :: 0 <= j < k ==> entries[j].name != name
  {
    if entries != [] {
      FindFirst(entries[1..], name);
      if entries[0].name != name && Find(entries[1..], name).Some? {
        var k :| 0 <= k < |entries[1..]| && entries[1..][k].name == name
          && Find(entries[1..], name).value == entries[1..][k]
          && forall j :: 0 <= j < k ==> entries[1..][j].name != name;
        assert entries[k + 1] == entries[1..][k];
        assert forall j :: 1 <= j < k + 1 ==> entries[j] == entries[1..][j - 1];
      }
      assert forall k :: 1 <= k < |entries| ==> entries[k] == entries[1..][k - 1];
    }
  }

  function Fresh(scores: seq<Score>, exclude: set<string>): seq<Score> {
    if scores == [] then []
    else Fresh(scores[..|scores| - 1], exclude)
         + if scores[|scores| - 1].id in exclude then [] else [scores[|scores| - 1]]
  }

  datatype Tables = Tables(scores: map<string, int>, categories: map<string, seq<string>>)

  function Accumulate(t: Tables, id: string, value: int, categories: seq<string>): Tables {
    Tables(t.scores[id := (if id in t.scores then t.scores[id] else 0) + value], t.categories[id := categories])
  }

  function AddNeighbors(t: Tables, neighbors: seq<Score>, exclude: set<string>): Tables
    decreases |neighbors|
  {
    if neighbors == [] then t
    else
      var n := neighbors[0];
      AddNeighbors(if n.id in exclude then t else Accumulate(t, n.id, n.value, n.categories), neighbors[1..], exclude)
  }

  function GatherNeighbors(q: Request, name: string, items: seq<string>, exclude: set<string>, t: Tables)
    : Outcome<Tables>
    decreases |items|
  {
    if items == [] then Ok(t)
    else
      var n := q.stores.neighbors(name, items[0]);
      if n.Failed? then Failed
      else GatherNeighbors(q, name, items[1..], exclude, AddNeighbors(t, n.value, exclude))
  }

  function AddItems(t: Tables, items: seq<string>, value: int, exclude: set<string>): Tables
    decreases |items|
  {
    if items == [] then t
    else AddItems(if items[0] in exclude then t else Accumulate(t, items[0], value, []), items[1..], value, exclude)
  }

  function GatherUsers(q: Request, users: seq<Score>, exclude: set<string>, t: Tables): Outcome<Tables>
    decreases |users|
  {
    if users == [] then Ok(t)
    else
      var items := q.stores.positiveItemsOf(users[0].id);
      if items.Failed? then Failed
      else GatherUsers(q, users[1..], exclude, AddItems(t, items.value, users[0].value, exclude))
  }

  /** The items of the positive feedback; an online request looks only at the first
      `contextSize` of them, but never at none if there is one. */
  function Context(history: seq<Feedback>, online: bool, contextSize: int): seq<string> {
    var all, most := PositiveItems(history), if contextSize < 1 then 1 else contextSize;
    if !online || |all| <= most then all else all[..most]
  }

  function PositiveItems(history: seq<Feedback>): seq<string> {
    if history == [] then []
    else PositiveItems(history[..|history| - 1])
         + if history[|history| - 1].positive then [history[|history| - 1].item] else []
  }

  function Ranked(t: Tables, ids: seq<string>): (r: seq<Score>)
    requires forall k :: 0 <= k < |ids| ==> ids[k] in t.scores && ids[k] in t.categories
    ensures |r| == |ids| && forall k :: 0 <= k < |r| ==> r[k].id == ids[k]
  {
    seq(|ids|, k requires 0 <= k < |ids| => Score(ids[k], t.scores[ids[k]], t.categories[ids[k]]))
  }

  /** The `size` best entries, best first, with ties in any order. */
  predicate IsSelection(m: map<string, int>, ids: seq<string>, size: nat) {
    && |ids| == (if |m| <= size then |m| else size)
    && (forall k :: 0 <= k < |ids| ==> ids[k] in m)
    && (forall j, k :: 0 <= j < k < |ids| ==> ids[j] != ids[k] && m[ids[j]] >= m[ids[k]])
    && (forall id, k :: id in m && id !in ids && 0 <= k < |ids| ==> m[id] <= m[ids[k]])
  }

  /** The item the last entry of a list with that id describes. */
  function ItemOf(items: seq<Item>, id: string): Option<Item> {
    if items == [] then None
    else if items[|items| - 1].id == id then Some(items[|items| - 1])
    else ItemOf(items[..|items| - 1], id)
  }

  predicate Every(categories: seq<string>, wanted: seq<string>) {
    forall k :: 0 <= k < |wanted| ==> wanted[k] in categories
  }

  function Visible(scores: map<string, int>, ids: seq<string>, items: seq<Item>, wanted: seq<string>): seq<Score>
    requires forall k :: 0 <= k < |ids| ==> ids[k] in scores
  {
    if ids == [] then []
    else
      var id := ids[|ids| - 1];
      var item := ItemOf(items, id);
      Visible(scores, ids[..|ids| - 1], items, wanted)
      + if item.Some? && Every(item.value.categories, wanted)
        then [Score(item.value.id, scores[id], item.value.categories)] else []
  }

  function Unscored(ids: seq<string>): (r: seq<Score>)
    ensures |r| == |ids| && forall k :: 0 <= k < |r| ==> r[k].id == ids[k]
  {
    seq(|ids|, k requires 0 <= k < |ids| => Score(ids[k], 0, []))
  }

  ghost predicate SelectsTop(q: Request) {
    forall m :: IsSelection(m, q.stores.top(m), q.config.cacheSize)
  }

  function AskItemToItem(q: Request, name: string, exclude: set<string>): Outcome<Answer>
    requires SelectsTop(q)
  {
    var config := Find(q.config.itemToItem, name);
    if config.None? then Failed
    else
      var t := GatherNeighbors(q, name, Context(q.history, q.online, q.config.contextSize), exclude,
                               Tables(map[], map[]));
      if t.Failed? then Failed
      else
        assert IsSelection(t.value.scores, q.stores.top(t.value.scores), q.config.cacheSize);
        GatherNeighborsTables(q, name, Context(q.history, q.online, q.config.contextSize), exclude,
                              Tables(map[], map[]));
        Ok(Answer(Ranked(t.value, q.stores.top(t.value.scores)), config.value.hash))
  }

  function AskUserToUser(q: Request, name: string, exclude: set<string>): Outcome<Answer>
    requires SelectsTop(q)
  {
    var config := Find(q.config.userToUser, name);
    var users := q.stores.similarUsers(name);
    if config.None? || users.Failed? then Failed
    else
      var t := GatherUsers(q, users.value, exclude, Tables(map[], map[]));
      if t.Failed? then Failed
      else
        var ids := q.stores.top(t.value.scores);
        var items := q.stores.visibleItems(ids);
        assert IsSelection(t.value.scores, ids, q.config.cacheSize);
        if items.Failed? then Failed
        else Ok(Answer(Visible(t.value.scores, ids, items.value, q.categories), config.value.hash))
  }

  function ExternalHash(c: Config, name: string): string {
    var config := Find(c.external, name);
    if config.Some? then config.value.hash else c.unnamedExternalHash
  }

  /** Scores filtered by the exclude set, with the digest stored beside them. */
  function Listed(scores: Outcome<seq<Score>>, digest: Outcome<string>, exclude: set<string>): Outcome<Answer> {
    if scores.Failed? || digest.Failed? then Failed else Ok(Answer(Fresh(scores.value, exclude), digest.value))
  }

  function AskExternal(q: Request, name: string, exclude: set<string>): Outcome<Answer> {
    if q.categories != [] then Ok(Answer([], ExternalHash(q.config, name)))
    else
      var ids := q.stores.pull(name);
      if ids.Failed? then Failed
      else Ok(Answer(Fresh(Unscored(ids.value), exclude), ExternalHash(q.config, name)))
  }

  function Ask(q: Request, fullname: string, exclude: set<string>): Outcome<Answer>
    requires SelectsTop(q)
  {
    match Parse(fullname)
    case None => Failed
    case Some(Collaborative) => Listed(q.stores.collaborative, q.stores.collaborativeDigest, exclude)
    case Some(Latest) => Listed(q.stores.latest, Ok(LATEST), exclude)
    case Some(NonPersonalized(name)) =>
      Listed(q.stores.nonPersonalized(name), q.stores.nonPersonalizedDigest(name), exclude)
    case Some(ItemToItem(name)) => AskItemToItem(q, name, exclude)
    case Some(UserToUser(name)) => AskUserToUser(q, name, exclude)
    case Some(External(name)) => AskExternal(q, name, exclude)
  }

  // ------------------------------------------------------------------
  // Sources leave out what is excluded
  // ------------------------------------------------------------------

  predicate Avoids(scores: seq<Score>, exclude: set<string>) {
    forall k :: 0 <= k < |scores| ==> scores[k].id !in exclude
  }

  predicate DistinctIds(scores: seq<Score>) {
    forall j, k :: 0 <= j < k < |scores| ==> scores[j].id != scores[k].id
  }

  predicate TablesAvoid(t: Tables, exclude: set<string>) {
    t.scores.Keys == t.categories.Keys && t.scores.Keys !! exclude
  }

  lemma {:induction false} FreshFacts(scores: seq<Score>, exclude: set<string>)
    ensures Avoids(Fresh(scores, exclude), exclude)
    ensures forall s :: s in Fresh(scores, exclude) <==> s in scores && s.id !in exclude
    ensures DistinctIds(scores) ==> DistinctIds(Fresh(scores, exclude))
  {
    if scores != [] {
      var front, last := scores[..|scores| - 1], scores[|scores| - 1];
      FreshFacts(front, exclude);
      assert scores == front + [last];
      if DistinctIds(scores) {
        forall s | s in Fresh(front, exclude)
          ensures s.id != last.id
        {
          var j :| 0 <= j < |front| && front[j] == s;
          assert scores[j].id != last.id;
        }
      }
    }
  }

  /** The filter keeps exactly the positions whose item is not excluded, in order. */
  lemma {:induction false} FreshInOrder(scores: seq<Score>, exclude: set<string>) returns (at: seq<nat>)
    ensures Picks(Fresh(scores, exclude), scores, at)
    ensures forall p: nat :: p < |scores| ==> (p in at <==> scores[p].id !in exclude)
  {
    if scores == [] {
      at := [];
    } else {
      var n := |scores| - 1;
      assert scores == scores[..n] + [scores[n]];
      at := FreshInOrder(scores[..n], exclude);
      if scores[n].id !in exclude {
        at := at + [n];
      }
    }
  }

  lemma {:induction false} AddNeighborsTables(t: Tables, neighbors: seq<Score>, exclude: set<string>)
    requires TablesAvoid(t, exclude)
    ensures TablesAvoid(AddNeighbors(t, neighbors, exclude), exclude)
    decreases |neighbors|
  {
    if neighbors != [] {
      var n := neighbors[0];
      AddNeighborsTables(if n.id in exclude then t else Accumulate(t, n.id, n.value, n.categories), neighbors[1..],
                         exclude);
    }
  }

  lemma {:induction false} GatherNeighborsTables(q: Request, name: string, items: seq<string>, exclude: set<string>,
                                                 t: Tables)
    requires TablesAvoid(t, exclude)
    ensures var r := GatherNeighbors(q, name, items, exclude, t); r.Ok? ==> TablesAvoid(r.value, exclude)
    decreases |items|
  {
    if items != [] {
      var n := q.stores.neighbors(name, items[0]);
      if n.Ok? {
        AddNeighborsTables(t, n.value, exclude);
        GatherNeighborsTables(q, name, items[1..], exclude, AddNeighbors(t, n.value, exclude));
      }
    }
  }

  lemma {:induction false} AddItemsTables(t: Tables, items: seq<string>, value: int, exclude: set<string>)
    requires TablesAvoid(t, exclude)
    ensures TablesAvoid(AddItems(t, items, value, exclude), exclude)
    decreases |items|
  {
    if items != [] {
      AddItemsTables(if items[0] in exclude then t else Accumulate(t, items[0], value, []), items[1..], value, exclude);
    }
  }

  lemma {:induction false} GatherUsersTables(q: Request, users: seq<Score>, exclude: set<string>, t: Tables)
    requires TablesAvoid(t, exclude)
    ensures var r := GatherUsers(q, users, exclude, t); r.Ok? ==> TablesAvoid(r.value, exclude)
    decreases |users|
  {
    if users != [] {
      var items := q.stores.positiveItemsOf(users[0].id);
      if items.Ok? {
        AddItemsTables(t, items.value, users[0].value, exclude);
        GatherUsersTables(q, users[1..], exclude, AddItems(t, items.value, users[0].value, exclude));
      }
    }
  }

  lemma {:induction false} ItemOfId(items: seq<Item>, id: string)
    ensures ItemOf(items, id).Some? ==> ItemOf(items, id).value.id == id
    ensures ItemOf(items, id).None? <==> forall k :: 0 <= k < |items| ==> items[k].id != id
  {
    if items != [] {
      ItemOfId(items[..|items| - 1], id);
    }
  }

  lemma {:induction false} VisibleFacts(m: map<string, int>, ids: seq<string>, items: seq<Item>, wanted: seq<string>)
    requires forall k :: 0 <= k < |ids| ==> ids[k] in m
    requires forall j, k :: 0 <= j < k < |ids| ==> ids[j] != ids[k]
    ensures forall s :: s in Visible(m, ids, items, wanted) ==> s.id in ids
    ensures DistinctIds(Visible(m, ids, items, wanted))
  {
    if ids != [] {
      var front, last := ids[..|ids| - 1], ids[|ids| - 1];
      VisibleFacts(m, front, items, wanted);
      ItemOfId(items, last);
      assert ids == front + [last];
      assert forall s :: s in Visible(m, front, items, wanted) ==> s.id in front && s.id != last;
    }
  }

  /** Every list a store returns names an item at most once. */
  ghost predicate SourcesRepeatNothing(q: Request) {
    && (q.stores.latest.Ok? ==> DistinctIds(q.stores.latest.value))
    && (q.stores.collaborative.Ok? ==> DistinctIds(q.stores.collaborative.value))
    && (forall name :: q.stores.nonPersonalized(name).Ok? ==> DistinctIds(q.stores.nonPersonalized(name).value))
    && (forall name :: q.stores.pull(name).Ok? ==> DistinctIds(Unscored(q.stores.pull(name).value)))
  }

  lemma AskAvoids(q: Request, fullname: string, exclude: set<string>)
    requires SelectsTop(q) && Ask(q, fullname, exclude).Ok?
    ensures Avoids(Ask(q, fullname, exclude).value.scores, exclude)
    ensures SourcesRepeatNothing(q) ==> DistinctIds(Ask(q, fullname, exclude).value.scores)
  {
    match Parse(fullname)
    case Some(Collaborative) => FreshFacts(q.stores.collaborative.value, exclude);
    case Some(Latest) => FreshFacts(q.stores.latest.value, exclude);
    case Some(NonPersonalized(name)) => FreshFacts(q.stores.nonPersonalized(name).value, exclude);
    case Some(ItemToItem(name)) => ItemToItemAvoids(q, name, exclude);
    case Some(UserToUser(name)) => UserToUserAvoids(q, name, exclude);
    case Some(External(name)) =>
      if q.categories == [] {
        FreshFacts(Unscored(q.stores.pull(name).value), exclude);
      }
  }

  lemma ItemToItemAvoids(q: Request, name: string, exclude: set<string>)
    requires SelectsTop(q) && AskItemToItem(q, name, exclude).Ok?
    ensures Avoids(AskItemToItem(q, name, exclude).value.scores, exclude)
    ensures DistinctIds(AskItemToItem(q, name, exclude).value.scores)
  {
    var items := Context(q.history, q.online, q.config.contextSize);
    var t := GatherNeighbors(q, name, items, exclude, Tables(map[], map[]));
    GatherNeighborsTables(q, name, items, exclude, Tables(map[], map[]));
    assert IsSelection(t.value.scores, q.stores.top(t.value.scores), q.config.cacheSize);
  }

  lemma UserToUserAvoids(q: Request, name: string, exclude: set<string>)
    requires SelectsTop(q) && AskUserToUser(q, name, exclude).Ok?
    ensures Avoids(AskUserToUser(q, name, exclude).value.scores, exclude)
    ensures DistinctIds(AskUserToUser(q, name, exclude).value.scores)
  {
    var users := q.stores.similarUsers(name);
    var t := GatherUsers(q, users.value, exclude, Tables(map[], map[]));
    GatherUsersTables(q, users.value, exclude, Tables(map[], map[]));
    var ids := q.stores.top(t.value.scores);
    assert IsSelection(t.value.scores, ids, q.config.cacheSize);
    VisibleFacts(t.value.scores, ids, q.stores.visibleItems(ids).value, q.categories);
  }

  // ------------------------------------------------------------------
  // When a source fails
  // ------------------------------------------------------------------

  lemma {:induction false} GatherNeighborsFails(q: Request, name: string, items: seq<string>, exclude: set<string>,
                                                t: Tables)
    ensures GatherNeighbors(q, name, items, exclude, t).Failed? <==>
      exists k :: 0 <= k < |items| && q.stores.neighbors(name, items[k]).Failed?
    decreases |items|
  {
    if items != [] {
      var n := q.stores.neighbors(name, items[0]);
      if n.Ok? {
        GatherNeighborsFails(q, name, items[1..], exclude, AddNeighbors(t, n.value, exclude));
        assert forall k :: 1 <= k < |items| ==> items[k] == items[1..][k - 1];
      }
    }
  }

  lemma {:induction false} GatherUsersFails(q: Request, users: seq<Score>, exclude: set<string>, t: Tables)
    ensures GatherUsers(q, users, exclude, t).Failed? <==>
      exists k :: 0 <= k < |users| && q.stores.positiveItemsOf(users[k].id).Failed?
    decreases |users|
  {
    if users != [] {
      var items := q.stores.positiveItemsOf(users[0].id);
      if items.Ok? {
        GatherUsersFails(q, users[1..], exclude, AddItems(t, items.value, users[0].value, exclude));
        assert forall k :: 1 <= k < |users| ==> users[k] == users[1..][k - 1];
      }
    }
  }

  /** A source answers unless it is not configured or one of its queries fails; which
      items are excluded plays no part. */
  lemma AskFailsIff(q: Request, name: string, exclude: set<string>)
    requires SelectsTop(q)
    ensures Ask(q, "latest", exclude).Failed? <==> q.stores.latest.Failed?
    ensures Ask(q, "collaborative", exclude).Failed? <==>
      q.stores.collaborative.Failed? || q.stores.collaborativeDigest.Failed?
    ensures Ask(q, "non-personalized/" + name, exclude).Failed? <==>
      q.stores.nonPersonalized(name).Failed? || q.stores.nonPersonalizedDigest(name).Failed?
    ensures Ask(q, "external/" + name, exclude).Failed? <==> q.categories == [] && q.stores.pull(name).Failed?
    ensures Ask(q, "item-to-item/" + name, exclude).Failed? <==>
      (forall k :: 0 <= k < |q.config.itemToItem| ==> q.config.itemToItem[k].name != name)
      || exists k :: 0 <= k < |Context(q.history, q.online, q.config.contextSize)|
                     && q.stores.neighbors(name, Context(q.history, q.online, q.config.contextSize)[k]).Failed?
  {
    ParseSpelledOut(name);
    FindFirst(q.config.itemToItem, name);
    GatherNeighborsFails(q, name, Context(q.history, q.online, q.config.contextSize), exclude, Tables(map[], map[]));
  }

  /** User-to-user recommendation needs its section, the similar users, the positive
      items of each of them, and the details of the selected items. */
  lemma UserToUserFailsIff(q: Request, name: string, exclude: set<string>) returns (selected: seq<string>)
    requires SelectsTop(q)
    ensures Ask(q, "user-to-user/" + name, exclude).Failed? <==>
      (forall k :: 0 <= k < |q.config.userToUser| ==> q.config.userToUser[k].name != name)
      || q.stores.similarUsers(name).Failed?
      || (exists k :: 0 <= k < |q.stores.similarUsers(name).value|
                      && q.stores.positiveItemsOf(q.stores.similarUsers(name).value[k].id).Failed?)
      || q.stores.visibleItems(selected).Failed?
  {
    ParseSpelledOut(name);
    FindFirst(q.config.userToUser, name);
    selected := [];
    var users := q.stores.similarUsers(name);
    if users.Ok? {
      GatherUsersFails(q, users.value, exclude, Tables(map[], map[]));
      var t := GatherUsers(q, users.value, exclude, Tables(map[], map[]));
      if t.Ok? {
        selected := q.stores.top(t.value.scores);
      }
    }
  }

  // ------------------------------------------------------------------
  // The chain
  // ------------------------------------------------------------------

  /** The state after asking some sources. */
  datatype Chain = Chain(result: Outcome<seq<Score>>, digests: seq<string>, exclude: set<string>)

  function Ids(scores: seq<Score>): set<string> {
    set s | s in scores :: s.id
  }

  function Take(scores: seq<Score>, limit: int): seq<Score> {
    if limit <= 0 || |scores| <= limit then scores else scores[..limit]
  }

  /** Asks the sources in turn until there are `limit` results; all of them if the
      limit is not positive. */
  function Sequential(q: Request, names: seq<string>, exclude: set<string>, result: seq<Score>, digests: seq<string>,
                      limit: int): Chain
    requires SelectsTop(q)
    decreases |names|
  {
    if names == [] then Chain(Ok(result), digests, exclude)
    else
      var a := Ask(q, names[0], exclude);
      if a.Failed? then Chain(Failed, digests, exclude)
      else
        var result', digests' := result + a.value.scores, digests + [a.value.digest];
        var exclude' := exclude + Ids(a.value.scores);
        if limit > 0 && |result'| >= limit then Chain(Ok(result'[..limit]), digests', exclude')
        else Sequential(q, names[1..], exclude', result', digests', limit)
  }

  /** The cached recommendations that are not excluded, each once. */
  function Unseen(scores: seq<Score>, exclude: set<string>): (seq<Score>, set<string>) {
    if scores == [] then ([], exclude)
    else
      var before := Unseen(scores[..|scores| - 1], exclude);
      var last := scores[|scores| - 1];
      if last.id in before.1 then before else (before.0 + [last], before.1 + {last.id})
  }

  /** The first stage: the ranked recommendations in the cache, or the ranker's
      sources if there is no ranker. */
  function FirstStage(q: Request, exclude: set<string>): Chain
    requires SelectsTop(q)
  {
    if q.config.rankerIsNone then Sequential(q, q.config.rankerRecommenders, exclude, [], [], q.config.cacheSize)
    else if q.stores.cached.Failed? then Chain(Failed, [], exclude)
    else
      var unseen := Unseen(q.stores.cached.value, exclude);
      Chain(Ok(unseen.0), [], unseen.1)
  }

  function Recommended(q: Request, exclude: set<string>, limit: int): Chain
    requires SelectsTop(q)
  {
    var first := FirstStage(q, exclude);
    if first.result.Failed? then first
    else if limit > 0 && |first.result.value| >= limit then first.(result := Ok(first.result.value[..limit]))
    else Sequential(q, q.config.fallbackRecommenders, first.exclude, first.result.value, [], limit)
  }

  /** The items that a new recommender excludes. */
  function InitialExclude(q: Request): set<string> {
    set f | f in q.history && (f.negative || !q.config.enableReplacement || !q.online) :: f.item
  }

  predicate Unlimited(count: nat, limit: int) {
    limit <= 0 || count < limit
  }

  /** The results so far are never taken back. */
  lemma {:induction false} SequentialExtends(q: Request, names: seq<string>, exclude: set<string>, result: seq<Score>,
                                             digests: seq<string>, limit: int)
    requires SelectsTop(q) && Unlimited(|result|, limit)
    ensures var c := Sequential(q, names, exclude, result, digests, limit);
      c.result.Ok? ==> result <= c.result.value && (limit > 0 ==> |c.result.value| <= limit)
    decreases |names|
  {
    if names != [] {
      var a := Ask(q, names[0], exclude);
      if a.Ok? && Unlimited(|result + a.value.scores|, limit) {
        SequentialExtends(q, names[1..], exclude + Ids(a.value.scores), result + a.value.scores,
                          digests + [a.value.digest], limit);
      }
    }
  }

  lemma PrefixTake(a: seq<Score>, b: seq<Score>, k: int)
    requires a <= b && 0 < k <= |a|
    ensures a[..k] == Take(b, k)
  {
  }

  lemma TakeTwice(a: seq<Score>, limit: int, k: int)
    requires 0 < k <= limit <= |a|
    ensures Take(a[..limit], k) == a[..k]
  {
  }

  /** A smaller limit gives the first results of a larger one. */
  lemma {:induction false} SequentialPrefix(q: Request, names: seq<string>, exclude: set<string>, result: seq<Score>,
                                            digests: seq<string>, k: int, limit: int)
    requires SelectsTop(q) && |result| < k && (limit <= 0 || k <= limit)
    ensures var c := Sequential(q, names, exclude, result, digests, limit);
      c.result.Ok? ==> Sequential(q, names, exclude, result, digests, k).result == Ok(Take(c.result.value, k))
    decreases |names|
  {
    if names != [] {
      var a, c := Ask(q, names[0], exclude), Sequential(q, names, exclude, result, digests, limit);
      if a.Ok? {
        var result', digests' := result + a.value.scores, digests + [a.value.digest];
        var exclude' := exclude + Ids(a.value.scores);
        if Unlimited(|result'|, limit) {
          SequentialExtends(q, names[1..], exclude', result', digests', limit);
          if |result'| < k {
            SequentialPrefix(q, names[1..], exclude', result', digests', k, limit);
          } else if c.result.Ok? {
            PrefixTake(result', c.result.value, k);
          }
        } else {
          TakeTwice(result', limit, k);
        }
      }
    }
  }

  /** New results avoid the exclude set, and repeat nothing if the sources do not. */
  lemma {:induction false} SequentialAvoids(q: Request, names: seq<string>, exclude: set<string>, result: seq<Score>,
                                            digests: seq<string>, limit: int, banned: set<string>)
    requires SelectsTop(q) && Unlimited(|result|, limit)
    requires banned <= exclude && Avoids(result, banned) && Ids(result) <= exclude
    ensures var c := Sequential(q, names, exclude, result, digests, limit);
      c.result.Ok? ==>
        && Avoids(c.result.value, banned)
        && (SourcesRepeatNothing(q) && DistinctIds(result) ==> DistinctIds(c.result.value))
        && Ids(c.result.value) <= c.exclude && exclude <= c.exclude
    decreases |names|
  {
    if names != [] {
      var a := Ask(q, names[0], exclude);
      if a.Ok? {
        AskAvoids(q, names[0], exclude);
        var scores := a.value.scores;
        JoinDistinct(result, scores, exclude);
        if Unlimited(|result + scores|, limit) {
          SequentialAvoids(q, names[1..], exclude + Ids(scores), result + scores, digests + [a.value.digest], limit,
                           banned);
        } else {
          IdsOfPart(result + scores, limit);
        }
      }
    }
  }

  lemma JoinDistinct(a: seq<Score>, b: seq<Score>, exclude: set<string>)
    requires Ids(a) <= exclude && Avoids(b, exclude)
    ensures Ids(a + b) <= exclude + Ids(b)
    ensures DistinctIds(a) && DistinctIds(b) ==> DistinctIds(a + b)
  {
    forall j, k | 0 <= j < |a| <= k < |a + b|
      ensures (a + b)[j].id != (a + b)[k].id
    {
      assert a[j].id in Ids(a);
    }
  }

  lemma IdsOfPart(scores: seq<Score>, n: nat)
    requires n <= |scores|
    ensures Ids(scores[..n]) <= Ids(scores)
  {
  }

  lemma {:induction false} UnseenFacts(scores: seq<Score>, exclude: set<string>)
    ensures var (r, e) := Unseen(scores, exclude);
      && e == exclude + Ids(r) && Avoids(r, exclude) && DistinctIds(r)
      && (forall s :: s in r ==> s in scores) && (forall s :: s in scores ==> s.id in exclude + Ids(r))
  {
    if scores != [] {
      UnseenFacts(scores[..|scores| - 1], exclude);
      var (r, e) := Unseen(scores[..|scores| - 1], exclude);
      var last := scores[|scores| - 1];
      assert scores == scores[..|scores| - 1] + [last];
      forall k | 0 <= k < |r|
        ensures r[k].id in Ids(r)
      {
      }
      assert Ids(r + [last]) == Ids(r) + {last.id} by {
        assert forall s :: s in r + [last] <==> s in r || s == last;
      }
    }
  }

  /** The cached recommendations are kept in order: exactly the positions whose item is
      not excluded and occurs there for the first time. */
  lemma {:induction false} UnseenInOrder(scores: seq<Score>, exclude: set<string>) returns (at: seq<nat>)
    ensures Picks(Unseen(scores, exclude).0, scores, at)
    ensures forall p: nat :: p < |scores| ==>
      (p in at <==> scores[p].id !in exclude && forall p' :: 0 <= p' < p ==> scores[p'].id != scores[p].id)
  {
    if scores == [] {
      at := [];
    } else {
      var n := |scores| - 1;
      var front := scores[..n];
      assert scores == front + [scores[n]];
      at := UnseenInOrder(front, exclude);
      SeenBefore(front, exclude, scores[n].id);
      if scores[n].id !in Unseen(front, exclude).1 {
        at := at + [n];
      }
    }
  }

  lemma SeenBefore(scores: seq<Score>, exclude: set<string>, id: string)
    ensures id in Unseen(scores, exclude).1 <==> id in exclude || exists p :: 0 <= p < |scores| && scores[p].id == id
  {
    UnseenFacts(scores, exclude);
    var (r, e) := Unseen(scores, exclude);
    if id in Ids(r) {
      var s :| s in r && s.id == id;
      assert s in scores;
    }
    if p :| 0 <= p < |scores| && scores[p].id == id {
      assert scores[p] in scores;
    }
  }

  lemma FirstStageAvoids(q: Request, exclude: set<string>)
    requires SelectsTop(q) && FirstStage(q, exclude).result.Ok?
    ensures var c := FirstStage(q, exclude);
      && Avoids(c.result.value, exclude) && Ids(c.result.value) <= c.exclude && exclude <= c.exclude
      && (SourcesRepeatNothing(q) ==> DistinctIds(c.result.value))
  {
    if q.config.rankerIsNone {
      SequentialAvoids(q, q.config.rankerRecommenders, exclude, [], [], q.config.cacheSize, exclude);
    } else {
      UnseenFacts(q.stores.cached.value, exclude);
    }
  }

  /** Recommend never returns an excluded item, and no item twice if no source does. */
  lemma RecommendAvoids(q: Request, exclude: set<string>, limit: int)
    requires SelectsTop(q) && Recommended(q, exclude, limit).result.Ok?
    ensures Avoids(Recommended(q, exclude, limit).result.value, exclude)
    ensures SourcesRepeatNothing(q) ==> DistinctIds(Recommended(q, exclude, limit).result.value)
  {
    FirstStageAvoids(q, exclude);
    var first := FirstStage(q, exclude);
    if Unlimited(|first.result.value|, limit) {
      SequentialAvoids(q, q.config.fallbackRecommenders, first.exclude, first.result.value, [], limit, exclude);
    }
  }

  /** An item with negative feedback is never recommended, and with replacement off
      or offline no item with any feedback is. */
  lemma NeverRecommendsNegative(q: Request, limit: int, f: Feedback)
    requires SelectsTop(q) && Recommended(q, InitialExclude(q), limit).result.Ok?
    requires f in q.history && (f.negative || !q.config.enableReplacement || !q.online)
    ensures f.item !in Ids(Recommended(q, InitialExclude(q), limit).result.value)
  {
    RecommendAvoids(q, InitialExclude(q), limit);
    assert f.item in InitialExclude(q);
  }

  /** Asking for fewer recommendations gives the first of those a larger request
      gives, and cannot fail where the larger one succeeds. */
  lemma SmallerLimitIsPrefix(q: Request, exclude: set<string>, k: int, limit: int)
    requires SelectsTop(q) && 0 < k && (limit <= 0 || k <= limit)
    requires Recommended(q, exclude, limit).result.Ok?
    ensures var larger := Recommended(q, exclude, limit).result.value;
      Recommended(q, exclude, k).result == Ok(if |larger| <= k then larger else larger[..k])
  {
    var first := FirstStage(q, exclude);
    if Unlimited(|first.result.value|, limit) {
      SequentialExtends(q, q.config.fallbackRecommenders, first.exclude, first.result.value, [], limit);
      if |first.result.value| < k {
        SequentialPrefix(q, q.config.fallbackRecommenders, first.exclude, first.result.value, [], k, limit);
      } else {
        PrefixTake(first.result.value, Recommended(q, exclude, limit).result.value, k);
      }
    } else {
      TakeTwice(first.result.value, limit, k);
    }
  }

  /** With a ranker the cached recommendations come first, before anything from the
      fallback: in the order of the cache, exactly those that are not excluded and
      occur for the first time, as many as the limit allows. */
  lemma CachedComeFirst(q: Request, exclude: set<string>, limit: int)
    returns (cached: seq<Score>, at: seq<nat>)
    requires SelectsTop(q) && !q.config.rankerIsNone && Recommended(q, exclude, limit).result.Ok?
    ensures q.stores.cached.Ok?
    ensures var r := Recommended(q, exclude, limit).result.value;
      if 0 < limit < |cached| then r == cached[..limit] else cached <= r
    ensures Picks(cached, q.stores.cached.value, at)
    ensures var s := q.stores.cached.value;
      forall p: nat :: p < |s| ==>
        (p in at <==> s[p].id !in exclude && forall p' :: 0 <= p' < p ==> s[p'].id != s[p].id)
  {
    at := UnseenInOrder(q.stores.cached.value, exclude);
    cached := Unseen(q.stores.cached.value, exclude).0;
    var first := FirstStage(q, exclude);
    if Unlimited(|first.result.value|, limit) {
      SequentialExtends(q, q.config.fallbackRecommenders, first.exclude, first.result.value, [], limit);
    }
  }

  /** The source always answers with those of `scores` that are not excluded. */
  ghost predicate Filters(q: Request, fullname: string, scores: seq<Score>)
    requires SelectsTop(q)
  {
    forall exclude :: Ask(q, fullname, exclude).Ok? ==> Ask(q, fullname, exclude).value.scores == Fresh(scores, exclude)
  }

  lemma ListingSourcesFilter(q: Request, name: string)
    requires SelectsTop(q)
    ensures q.categories == [] && q.stores.pull(name).Ok? ==>
      Filters(q, EXTERNAL + name, Unscored(q.stores.pull(name).value))
    ensures q.categories != [] ==> Filters(q, EXTERNAL + name, [])
    ensures q.stores.latest.Ok? ==> Filters(q, LATEST, q.stores.latest.value)
    ensures q.stores.collaborative.Ok? ==> Filters(q, COLLABORATIVE, q.stores.collaborative.value)
    ensures q.stores.nonPersonalized(name).Ok? ==>
      Filters(q, NON_PERSONALIZED + name, q.stores.nonPersonalized(name).value)
  {
    ParseFullName(Latest);
    ParseFullName(Collaborative);
    ParseFullName(NonPersonalized(name));
    ParseFullName(External(name));
    assert forall exclude :: Fresh([], exclude) == [];
  }

  /** An external recommender is not asked when categories are requested. */
  lemma ExternalIgnoresCategories(q: Request, name: string, exclude: set<string>)
    requires SelectsTop(q) && q.categories != []
    ensures Ask(q, "external/" + name, exclude).Ok? && Ask(q, "external/" + name, exclude).value.scores == []
  {
    ParseFullName(External(name));
  }

  predicate Reached(result: seq<Score>, limit: int) {
    limit > 0 && |result| == limit
  }

  /** A chain that ends without reaching its limit loses nothing a listing source
      has: every item is in the result or was excluded before, and nothing else is
      excluded in the end. */
  lemma {:induction false} ChainLosesNothing(q: Request, names: seq<string>, exclude: set<string>, result: seq<Score>,
                                             digests: seq<string>, limit: int,
                                             fullname: string, scores: seq<Score>)
    requires SelectsTop(q) && Filters(q, fullname, scores) && Unlimited(|result|, limit)
    ensures var c := Sequential(q, names, exclude, result, digests, limit);
      c.result.Ok? && !(limit > 0 && |c.result.value| == limit) ==>
        && c.exclude + Ids(result) == exclude + Ids(c.result.value)
        && (fullname in names ==> Ids(scores) <= c.exclude)
    decreases |names|
  {
    var c := Sequential(q, names, exclude, result, digests, limit);
    if names != [] && c.result.Ok? && !Reached(c.result.value, limit) {
      var a := Ask(q, names[0], exclude);
      var result', exclude' := result + a.value.scores, exclude + Ids(a.value.scores);
      assert Unlimited(|result'|, limit) && c == Sequential(q, names[1..], exclude', result',
                                                            digests + [a.value.digest], limit);
      ChainLosesNothing(q, names[1..], exclude', result', digests + [a.value.digest], limit, fullname, scores);
      RestExtends(q, names[1..], exclude', result', digests + [a.value.digest], limit);
      IdsConcat(result, a.value.scores);
      LosesNothingStep(exclude, Ids(result), Ids(a.value.scores), c.exclude, Ids(c.result.value));
      assert fullname in names ==> fullname == names[0] || fullname in names[1..];
      if names[0] == fullname {
        FilteredIsExcluded(q, fullname, scores, exclude);
      }
    }
  }

  lemma LosesNothingStep(exclude: set<string>, before: set<string>, more: set<string>,
                         excluded: set<string>, after: set<string>)
    requires excluded + (before + more) == exclude + more + after
    requires exclude + more <= excluded && before + more <= after
    ensures excluded + before == exclude + after
  {
  }

  lemma FilteredIsExcluded(q: Request, fullname: string, scores: seq<Score>, exclude: set<string>)
    requires SelectsTop(q) && Filters(q, fullname, scores) && Ask(q, fullname, exclude).Ok?
    ensures Ids(scores) <= exclude + Ids(Ask(q, fullname, exclude).value.scores)
  {
    FreshFacts(scores, exclude);
  }

  lemma IdsConcat(a: seq<Score>, b: seq<Score>)
    ensures Ids(a + b) == Ids(a) + Ids(b)
  {
  }

  /** The exclude set of a chain only grows, and up to the limit so do the results. */
  lemma {:induction false} RestExtends(q: Request, names: seq<string>, exclude: set<string>, result: seq<Score>,
                                       digests: seq<string>, limit: int)
    requires SelectsTop(q)
    ensures var c := Sequential(q, names, exclude, result, digests, limit);
      c.result.Ok? ==> exclude <= c.exclude && (!Reached(c.result.value, limit) ==> Ids(result) <= Ids(c.result.value))
    decreases |names|
  {
    if names != [] {
      var a := Ask(q, names[0], exclude);
      if a.Ok? {
        IdsConcat(result, a.value.scores);
        RestExtends(q, names[1..], exclude + Ids(a.value.scores), result + a.value.scores, digests + [a.value.digest],
                    limit);
      }
    }
  }

  /** Whoever is listed earlier comes earlier: the results of the first names alone
      are the first results of all names. */
  lemma {:induction false} EarlierSourcesComeFirst(q: Request, first: seq<string>, rest: seq<string>,
                                                   exclude: set<string>, result: seq<Score>, digests: seq<string>,
                                                   limit: int)
    requires SelectsTop(q) && Unlimited(|result|, limit)
    requires Sequential(q, first + rest, exclude, result, digests, limit).result.Ok?
    ensures var c := Sequential(q, first, exclude, result, digests, limit).result;
      c.Ok? && c.value <= Sequential(q, first + rest, exclude, result, digests, limit).result.value
    decreases |first|
  {
    if first == [] {
      SequentialExtends(q, first + rest, exclude, result, digests, limit);
    } else {
      assert (first + rest)[1..] == first[1..] + rest;
      var a := Ask(q, first[0], exclude);
      if Unlimited(|result + a.value.scores|, limit) {
        EarlierSourcesComeFirst(q, first[1..], rest, exclude + Ids(a.value.scores), result + a.value.scores,
                                digests + [a.value.digest], limit);
      }
    }
  }

  /** With a ranker a successful request either fills its limit or misses nothing that
      is cached, or that a listing source of the fallback has: all of it is in the
      result or was excluded before. */
  lemma RankedRequestMissesNothing(q: Request, exclude: set<string>, limit: int, fullname: string, scores: seq<Score>)
    requires SelectsTop(q) && Recommended(q, exclude, limit).result.Ok? && !q.config.rankerIsNone
    requires fullname in q.config.fallbackRecommenders && Filters(q, fullname, scores)
    ensures var r := Recommended(q, exclude, limit).result.value;
      (limit > 0 && |r| == limit)
      || (q.stores.cached.Ok? && Ids(q.stores.cached.value) + Ids(scores) <= exclude + Ids(r))
  {
    var first := FirstStage(q, exclude);
    UnseenFacts(q.stores.cached.value, exclude);
    if Unlimited(|first.result.value|, limit) {
      FallbackMissesNothing(q, exclude, first, limit, fullname, scores);
    }
  }

  lemma FallbackMissesNothing(q: Request, exclude: set<string>, first: Chain, limit: int,
                              fullname: string, scores: seq<Score>)
    requires SelectsTop(q) && first.result.Ok? && Unlimited(|first.result.value|, limit)
    requires first.exclude == exclude + Ids(first.result.value)
    requires Filters(q, fullname, scores)
    ensures var c := Sequential(q, q.config.fallbackRecommenders, first.exclude, first.result.value, [], limit);
      c.result.Ok? && !Reached(c.result.value, limit) ==>
        && first.exclude <= exclude + Ids(c.result.value)
        && (fullname in q.config.fallbackRecommenders ==> Ids(scores) <= exclude + Ids(c.result.value))
  {
    ChainLosesNothing(q, q.config.fallbackRecommenders, first.exclude, first.result.value, [], limit, fullname, scores);
    RestExtends(q, q.config.fallbackRecommenders, first.exclude, first.result.value, [], limit);
  }

  /** Without a ranker a successful request fills its limit, or reaches the cache size,
      or misses nothing that a listing source of the ranker or of the fallback has. */
  lemma UnrankedRequestMissesNothing(q: Request, exclude: set<string>, limit: int, fullname: string,
                                     scores: seq<Score>)
    requires SelectsTop(q) && Recommended(q, exclude, limit).result.Ok? && q.config.rankerIsNone
    requires fullname in q.config.rankerRecommenders + q.config.fallbackRecommenders && Filters(q, fullname, scores)
    ensures var r := Recommended(q, exclude, limit).result.value;
      (limit > 0 && |r| == limit)
      || (q.config.cacheSize > 0 && |r| >= q.config.cacheSize)
      || Ids(scores) <= exclude + Ids(r)
  {
    var c, first, size := Recommended(q, exclude, limit), FirstStage(q, exclude), q.config.cacheSize;
    ChainLosesNothing(q, q.config.rankerRecommenders, exclude, [], [], size, fullname, scores);
    if Unlimited(|first.result.value|, limit) {
      SequentialExtends(q, q.config.fallbackRecommenders, first.exclude, first.result.value, [], limit);
      if !Reached(first.result.value, size) {
        assert first.exclude == exclude + Ids(first.result.value);
        FallbackMissesNothing(q, exclude, first, limit, fullname, scores);
      }
    }
  }

  /** The items that the first stage excludes without returning them. */
  function CutOff(q: Request, exclude: set<string>): set<string>
    requires SelectsTop(q) && FirstStage(q, exclude).result.Ok?
  {
    FirstStage(q, exclude).exclude - exclude - Ids(FirstStage(q, exclude).result.value)
  }

  /** If places are left at the end, all that a listing source of the fallback has is in
      the result, or was excluded before, if and only if the cache size has cut none of
      it off in the first stage; with a ranker nothing is cut off. */
  lemma FallbackFillsExceptCutOff(q: Request, exclude: set<string>, limit: int, fullname: string, scores: seq<Score>)
    requires SelectsTop(q) && Recommended(q, exclude, limit).result.Ok?
    requires fullname in q.config.fallbackRecommenders && Filters(q, fullname, scores)
    ensures FirstStage(q, exclude).result.Ok?
    ensures var r := Recommended(q, exclude, limit).result.value;
      limit <= 0 || |r| < limit ==> (Ids(scores) <= exclude + Ids(r) <==> CutOff(q, exclude) !! Ids(scores))
    ensures CutOff(q, exclude) != {} ==>
      q.config.rankerIsNone && q.config.cacheSize > 0
      && |FirstStage(q, exclude).result.value| == q.config.cacheSize
  {
    var c, first, cut := Recommended(q, exclude, limit), FirstStage(q, exclude), CutOff(q, exclude);
    var names, result := q.config.fallbackRecommenders, FirstStage(q, exclude).result.value;
    NothingElseCutOff(q, exclude, fullname, scores);
    FirstStageAvoids(q, exclude);
    if Unlimited(|result|, limit) {
      SequentialAvoids(q, names, first.exclude, result, [], limit, cut);
      ChainLosesNothing(q, names, first.exclude, result, [], limit, fullname, scores);
      RestExtends(q, names, first.exclude, result, [], limit);
      if !Reached(c.result.value, limit) {
        assert c.exclude == exclude + cut + Ids(c.result.value);
        AvoidsIds(c.result.value, cut);
      }
    }
  }

  lemma AvoidsIds(scores: seq<Score>, banned: set<string>)
    requires Avoids(scores, banned)
    ensures Ids(scores) !! banned
  {
    forall id | id in Ids(scores)
      ensures id !in banned
    {
      var s :| s in scores && s.id == id;
      var k :| 0 <= k < |scores| && scores[k] == s;
    }
  }

  lemma NothingElseCutOff(q: Request, exclude: set<string>, fullname: string, scores: seq<Score>)
    requires SelectsTop(q) && FirstStage(q, exclude).result.Ok? && Filters(q, fullname, scores)
    ensures CutOff(q, exclude) != {} ==>
      q.config.rankerIsNone && q.config.cacheSize > 0
      && |FirstStage(q, exclude).result.value| == q.config.cacheSize
  {
    if q.config.rankerIsNone {
      ChainLosesNothing(q, q.config.rankerRecommenders, exclude, [], [], q.config.cacheSize, fullname, scores);
    } else {
      UnseenFacts(q.stores.cached.value, exclude);
    }
  }

  /** Without a ranker and with a cache size of 1, the second of two latest items is
      never returned, although the fallback has it and nine places are left. */
  lemma CutOffItemIsLost(q: Request, a: Score, b: Score)
    requires SelectsTop(q) && q.config.rankerIsNone && q.config.cacheSize == 1
    requires q.config.rankerRecommenders == ["latest"] && q.config.fallbackRecommenders == ["latest"]
    requires q.stores.latest == Ok([a, b]) && a.id != b.id
    ensures Recommended(q, {}, 10).result == Ok([a]) && CutOff(q, {}) == {b.id}
  {
    assert Ids([a, b]) == {a.id, b.id} && Ids([a]) == {a.id};
    FreshOfPair(a, b, {});
    LatestAlone(q, {}, [], 1);
    assert [] + [a, b] == [a, b] && {} + Ids([a, b]) == {a.id, b.id};
    assert FirstStage(q, {}) == Chain(Ok([a]), [LATEST], {a.id, b.id});
    FreshOfPair(a, b, {a.id, b.id});
    LatestAlone(q, {a.id, b.id}, [a], 10);
    assert [a] + [] == [a];
  }

  lemma LatestAlone(q: Request, exclude: set<string>, result: seq<Score>, limit: int)
    requires SelectsTop(q) && q.stores.latest.Ok? && limit > 0
    ensures var unseen := Fresh(q.stores.latest.value, exclude);
      Sequential(q, ["latest"], exclude, result, [], limit)
      == Chain(Ok(if |result + unseen| >= limit then (result + unseen)[..limit] else result + unseen), [LATEST],
               exclude + Ids(unseen))
  {
    ParseFullName(Latest);
    assert ["latest"][1..] == [] && [] + [LATEST] == [LATEST];
  }

  lemma FreshOfPair(a: Score, b: Score, exclude: set<string>)
    ensures exclude == {} ==> Fresh([a, b], exclude) == [a, b]
    ensures exclude == {a.id, b.id} ==> Fresh([a, b], exclude) == []
  {
    assert [a, b][..1] == [a] && [a][..0] == [];
    assert Fresh([], exclude) == [];
  }

  /** Calling Recommend again on the same recommender repeats none of the first
      call's results. */
  lemma CallsAreDisjoint(q: Request, exclude: set<string>, limit: int, again: int)
    requires SelectsTop(q)
    requires var c := Recommended(q, exclude, limit); c.result.Ok? && Recommended(q, c.exclude, again).result.Ok?
    ensures var c := Recommended(q, exclude, limit);
      Avoids(Recommended(q, c.exclude, again).result.value, Ids(c.result.value))
  {
    var c, first := Recommended(q, exclude, limit), FirstStage(q, exclude);
    FirstStageAvoids(q, exclude);
    assert Ids(c.result.value) <= c.exclude by {
      if Unlimited(|first.result.value|, limit) {
        SequentialAvoids(q, q.config.fallbackRecommenders, first.exclude, first.result.value, [], limit, exclude);
      } else {
        IdsOfPart(first.result.value, limit);
      }
    }
    RecommendAvoids(q, c.exclude, again);
  }

  // ------------------------------------------------------------------
  // Aggregated scores
  // ------------------------------------------------------------------

  /** The sum of the scores that a list gives an item. */
  function TotalScore(contributions: seq<Score>, id: string): int {
    if contributions == [] then 0
    else (if contributions[0].id == id then contributions[0].value else 0) + TotalScore(contributions[1..], id)
  }

  predicate Mentions(contributions: seq<Score>, id: string) {
    exists k :: 0 <= k < |contributions| && contributions[k].id == id
  }

  lemma {:induction false} AddNeighborsSums(t: Tables, contributions: seq<Score>, exclude: set<string>, id: string)
    ensures var r := AddNeighbors(t, contributions, exclude);
      && (id in r.scores <==> id in t.scores || (Mentions(contributions, id) && id !in exclude))
      && (id in r.scores ==> r.scores[id] == (if id in t.scores then t.scores[id] else 0)
                                             + if id in exclude then 0 else TotalScore(contributions, id))
      && (!Mentions(contributions, id) ==> TotalScore(contributions, id) == 0)
    decreases |contributions|
  {
    if contributions != [] {
      var n := contributions[0];
      AddNeighborsSums(if n.id in exclude then t else Accumulate(t, n.id, n.value, n.categories), contributions[1..],
                       exclude, id);
      MentionsFirst(contributions, id);
    }
  }

  lemma MentionsFirst(contributions: seq<Score>, id: string)
    requires contributions != []
    ensures Mentions(contributions, id) <==> contributions[0].id == id || Mentions(contributions[1..], id)
  {
    if Mentions(contributions, id) && contributions[0].id != id {
      var k :| 0 <= k < |contributions| && contributions[k].id == id;
      assert contributions[1..][k - 1].id == id;
    }
    if Mentions(contributions[1..], id) {
      var k :| 0 <= k < |contributions[1..]| && contributions[1..][k].id == id;
      assert contributions[k + 1].id == id;
    }
  }

  lemma {:induction false} AddNeighborsConcat(t: Tables, a: seq<Score>, b: seq<Score>, exclude: set<string>)
    ensures AddNeighbors(t, a + b, exclude) == AddNeighbors(AddNeighbors(t, a, exclude), b, exclude)
    decreases |a|
  {
    if a == [] {
      assert a + b == b;
    } else {
      assert (a + b)[1..] == a[1..] + b;
      AddNeighborsConcat(if a[0].id in exclude then t else Accumulate(t, a[0].id, a[0].value, a[0].categories),
                         a[1..], b, exclude);
    }
  }

  /** The neighbours of all items, one list after the other. */
  function AllNeighbors(q: Request, name: string, items: seq<string>): seq<Score> {
    if items == [] then []
    else
      var n := q.stores.neighbors(name, items[0]);
      (if n.Ok? then n.value else []) + AllNeighbors(q, name, items[1..])
  }

  lemma {:induction false} GatherIsFlat(q: Request, name: string, items: seq<string>, exclude: set<string>, t: Tables)
    ensures var r := GatherNeighbors(q, name, items, exclude, t);
      r.Ok? ==> r.value == AddNeighbors(t, AllNeighbors(q, name, items), exclude)
    decreases |items|
  {
    if items != [] {
      var n := q.stores.neighbors(name, items[0]);
      if n.Ok? {
        GatherIsFlat(q, name, items[1..], exclude, AddNeighbors(t, n.value, exclude));
        AddNeighborsConcat(t, n.value, AllNeighbors(q, name, items[1..]), exclude);
      }
    }
  }

  /** The items of all similar users, each worth the similarity of its user. */
  function AllLiked(q: Request, users: seq<Score>): seq<Score> {
    if users == [] then []
    else
      var items := q.stores.positiveItemsOf(users[0].id);
      (if items.Ok? then Worth(items.value, users[0].value) else []) + AllLiked(q, users[1..])
  }

  function Worth(items: seq<string>, value: int): seq<Score> {
    if items == [] then [] else [Score(items[0], value, [])] + Worth(items[1..], value)
  }

  lemma {:induction false} AddItemsIsAddNeighbors(t: Tables, items: seq<string>, value: int, exclude: set<string>)
    ensures AddItems(t, items, value, exclude) == AddNeighbors(t, Worth(items, value), exclude)
    decreases |items|
  {
    if items != [] {
      AddItemsIsAddNeighbors(if items[0] in exclude then t else Accumulate(t, items[0], value, []), items[1..], value,
                             exclude);
      assert Worth(items, value)[1..] == Worth(items[1..], value);
    }
  }

  lemma {:induction false} GatherUsersIsFlat(q: Request, users: seq<Score>, exclude: set<string>, t: Tables)
    ensures var r := GatherUsers(q, users, exclude, t);
      r.Ok? ==> r.value == AddNeighbors(t, AllLiked(q, users), exclude)
    decreases |users|
  {
    if users != [] {
      var items := q.stores.positiveItemsOf(users[0].id);
      if items.Ok? {
        AddItemsIsAddNeighbors(t, items.value, users[0].value, exclude);
        GatherUsersIsFlat(q, users[1..], exclude, AddItems(t, items.value, users[0].value, exclude));
        AddNeighborsConcat(t, Worth(items.value, users[0].value), AllLiked(q, users[1..]), exclude);
      }
    }
  }

  predicate IsLeftOut(id: string, scores: seq<Score>, exclude: set<string>) {
    id !in exclude && id !in Ids(scores)
  }

  /** `scores` ranks what `contributions` mention by total score, at most `size` of
      them, and none that is excluded. */
  predicate RanksBySum(scores: seq<Score>, contributions: seq<Score>, exclude: set<string>, size: nat) {
    && |scores| <= size
    && (forall k :: 0 <= k < |scores| ==>
          && Mentions(contributions, scores[k].id) && scores[k].id !in exclude
          && scores[k].value == TotalScore(contributions, scores[k].id))
    && (forall j, k :: 0 <= j < k < |scores| ==> scores[j].value >= scores[k].value)
    && (forall c :: 0 <= c < |contributions| && IsLeftOut(contributions[c].id, scores, exclude) ==>
          && |scores| == size
          && forall k :: 0 <= k < |scores| ==> TotalScore(contributions, contributions[c].id) <= scores[k].value)
  }

  lemma SelectionRanks(t: Tables, contributions: seq<Score>, exclude: set<string>, ids: seq<string>,
                       scores: seq<Score>, size: nat)
    requires t == AddNeighbors(Tables(map[], map[]), contributions, exclude) && IsSelection(t.scores, ids, size)
    requires |scores| == |ids| && forall k :: 0 <= k < |scores| ==>
      scores[k].id == ids[k] && scores[k].value == t.scores[ids[k]]
    ensures RanksBySum(scores, contributions, exclude, size)
  {
    forall k | 0 <= k < |scores|
      ensures Mentions(contributions, scores[k].id) && scores[k].id !in exclude
      ensures scores[k].value == TotalScore(contributions, scores[k].id)
    {
      AddNeighborsSums(Tables(map[], map[]), contributions, exclude, ids[k]);
    }
    forall c | 0 <= c < |contributions| && contributions[c].id !in exclude && contributions[c].id !in Ids(scores)
      ensures |scores| == size && forall k :: 0 <= k < |scores| ==>
        TotalScore(contributions, contributions[c].id) <= scores[k].value
    {
      AddNeighborsSums(Tables(map[], map[]), contributions, exclude, contributions[c].id);
      IdsListed(scores, ids, contributions[c].id);
      if |t.scores| <= size {
        AllSelected(t.scores, ids, contributions[c].id);
      }
    }
  }

  lemma IdsListed(scores: seq<Score>, ids: seq<string>, id: string)
    requires |scores| == |ids| && forall k :: 0 <= k < |scores| ==> scores[k].id == ids[k]
    ensures id in ids ==> id in Ids(scores)
  {
    if id in ids {
      var k :| 0 <= k < |ids| && ids[k] == id;
      assert scores[k] in scores;
    }
  }

  lemma AllSelected(m: map<string, int>, ids: seq<string>, id: string)
    requires |ids| == |m| && (forall k :: 0 <= k < |ids| ==> ids[k] in m)
    requires forall j, k :: 0 <= j < k < |ids| ==> ids[j] != ids[k]
    requires id in m
    ensures id in ids
  {
    var found := set s | s in ids;
    DistinctCount(ids);
    assert found <= m.Keys && |found| == |m.Keys|;
    SubsetOfSameSize(found, m.Keys);
  }

  lemma {:induction false} DistinctCount(ids: seq<string>)
    requires forall j, k :: 0 <= j < k < |ids| ==> ids[j] != ids[k]
    ensures |set s | s in ids| == |ids|
  {
    if ids != [] {
      var front, last := ids[..|ids| - 1], ids[|ids| - 1];
      DistinctCount(front);
      assert ids == front + [last];
      assert (set s | s in ids) == (set s | s in front) + {last};
    }
  }

  lemma SubsetOfSameSize(a: set<string>, b: set<string>)
    requires a <= b && |a| == |b|
    ensures a == b
  {
    assert b == a + (b - a);
  }

  /** Item-to-item recommendation ranks by the summed similarity to the user's
      positive items; the categories are those of the last neighbour of that name. */
  lemma ItemToItemRanksBySum(q: Request, name: string, exclude: set<string>)
    requires SelectsTop(q) && Ask(q, "item-to-item/" + name, exclude).Ok?
    ensures var neighbors := AllNeighbors(q, name, Context(q.history, q.online, q.config.contextSize));
      var scores := Ask(q, "item-to-item/" + name, exclude).value.scores;
      && RanksBySum(scores, neighbors, exclude, q.config.cacheSize)
      && forall k, c :: 0 <= k < |scores| && 0 <= c < |neighbors| && IsLastOf(neighbors, c, scores[k].id) ==>
           scores[k].categories == neighbors[c].categories
  {
    ParseFullName(ItemToItem(name));
    var items := Context(q.history, q.online, q.config.contextSize);
    var t := GatherNeighbors(q, name, items, exclude, Tables(map[], map[]));
    GatherIsFlat(q, name, items, exclude, Tables(map[], map[]));
    GatherNeighborsTables(q, name, items, exclude, Tables(map[], map[]));
    var ids := q.stores.top(t.value.scores);
    assert IsSelection(t.value.scores, ids, q.config.cacheSize);
    var neighbors := AllNeighbors(q, name, items);
    SelectionRanks(t.value, neighbors, exclude, ids, Ranked(t.value, ids), q.config.cacheSize);
    RankedCategories(t.value, neighbors, exclude, ids);
  }

  predicate IsLastOf(contributions: seq<Score>, c: nat, id: string) {
    && c < |contributions| && contributions[c].id == id
    && forall d :: c < d < |contributions| ==> contributions[d].id != id
  }

  lemma RankedCategories(t: Tables, contributions: seq<Score>, exclude: set<string>, ids: seq<string>)
    requires t == AddNeighbors(Tables(map[], map[]), contributions, exclude) && TablesAvoid(t, exclude)
    requires forall k :: 0 <= k < |ids| ==> ids[k] in t.scores
    ensures forall k, c :: 0 <= k < |ids| && 0 <= c < |contributions| && IsLastOf(contributions, c, ids[k]) ==>
      Ranked(t, ids)[k].categories == contributions[c].categories
  {
    forall k, c | 0 <= k < |ids| && 0 <= c < |contributions| && IsLastOf(contributions, c, ids[k])
      ensures Ranked(t, ids)[k].categories == contributions[c].categories
    {
      LastCategories(Tables(map[], map[]), contributions, exclude, c);
    }
  }

  lemma {:induction false} LastCategories(t: Tables, contributions: seq<Score>, exclude: set<string>, c: nat)
    requires c < |contributions| && IsLastOf(contributions, c, contributions[c].id)
    requires contributions[c].id !in exclude
    ensures var r := AddNeighbors(t, contributions, exclude);
      contributions[c].id in r.categories && r.categories[contributions[c].id] == contributions[c].categories
    decreases |contributions|
  {
    var n := contributions[0];
    var t' := if n.id in exclude then t else Accumulate(t, n.id, n.value, n.categories);
    if c == 0 {
      CategoriesStay(t', contributions[1..], exclude, n.id);
    } else {
      assert contributions[1..][c - 1] == contributions[c];
      LastCategories(t', contributions[1..], exclude, c - 1);
    }
  }

  lemma {:induction false} CategoriesStay(t: Tables, contributions: seq<Score>, exclude: set<string>, id: string)
    requires id in t.categories && forall k :: 0 <= k < |contributions| ==> contributions[k].id != id
    ensures var r := AddNeighbors(t, contributions, exclude);
      id in r.categories && r.categories[id] == t.categories[id]
    decreases |contributions|
  {
    if contributions != [] {
      var n := contributions[0];
      CategoriesStay(if n.id in exclude then t else Accumulate(t, n.id, n.value, n.categories), contributions[1..],
                     exclude, id);
    }
  }

  /** The item that a query for the details answered, if it has the wanted categories. */
  function ShownItem(items: seq<Item>, id: string, wanted: seq<string>): Option<Item> {
    var item := ItemOf(items, id);
    if item.Some? && Every(item.value.categories, wanted) then item else None
  }

  /** Those of a ranking whose items are shown, in the same order. */
  function Shown(ranked: seq<Score>, items: seq<Item>, wanted: seq<string>): seq<Score> {
    if ranked == [] then []
    else
      var last := ranked[|ranked| - 1];
      var item := ShownItem(items, last.id, wanted);
      Shown(ranked[..|ranked| - 1], items, wanted)
      + if item.Some? then [Score(item.value.id, last.value, item.value.categories)] else []
  }

  function IdList(scores: seq<Score>): (r: seq<string>)
    ensures |r| == |scores| && forall k :: 0 <= k < |r| ==> r[k] == scores[k].id
  {
    seq(|scores|, k requires 0 <= k < |scores| => scores[k].id)
  }

  lemma {:induction false} VisibleIsShown(m: map<string, int>, ids: seq<string>, items: seq<Item>, wanted: seq<string>,
                                          ranked: seq<Score>)
    requires forall k :: 0 <= k < |ids| ==> ids[k] in m
    requires |ranked| == |ids| && forall k :: 0 <= k < |ids| ==> ranked[k].id == ids[k] && ranked[k].value == m[ids[k]]
    ensures Visible(m, ids, items, wanted) == Shown(ranked, items, wanted)
  {
    if ids != [] {
      VisibleIsShown(m, ids[..|ids| - 1], items, wanted, ranked[..|ranked| - 1]);
    }
  }

  lemma {:induction false} ShownFacts(ranked: seq<Score>, items: seq<Item>, wanted: seq<string>)
    ensures |Shown(ranked, items, wanted)| <= |ranked|
    ensures forall s :: s in Shown(ranked, items, wanted) ==>
      Every(s.categories, wanted) && exists r :: r in ranked && r.id == s.id && r.value == s.value
    ensures forall r :: r in ranked && ShownItem(items, r.id, wanted).Some? ==>
      r.id in Ids(Shown(ranked, items, wanted))
  {
    if ranked != [] {
      var front, last := ranked[..|ranked| - 1], ranked[|ranked| - 1];
      assert ranked == front + [last];
      ShownFacts(front, items, wanted);
      ItemOfId(items, last.id);
      IdsConcat(Shown(front, items, wanted), Shown(ranked, items, wanted)[|Shown(front, items, wanted)|..]);
      assert forall s :: s in Shown(front, items, wanted) ==>
        exists r :: r in front && r.id == s.id && r.value == s.value;
      assert last in ranked;
    }
  }

  lemma {:induction false} ShownDescending(ranked: seq<Score>, items: seq<Item>, wanted: seq<string>)
    requires forall j, k :: 0 <= j < k < |ranked| ==> ranked[j].value >= ranked[k].value
    ensures var scores := Shown(ranked, items, wanted);
      forall j, k :: 0 <= j < k < |scores| ==> scores[j].value >= scores[k].value
  {
    if ranked != [] {
      var front, last := ranked[..|ranked| - 1], ranked[|ranked| - 1];
      ShownDescending(front, items, wanted);
      ShownFacts(front, items, wanted);
      forall s | s in Shown(front, items, wanted)
        ensures s.value >= last.value
      {
        var r :| r in front && r.id == s.id && r.value == s.value;
        var j :| 0 <= j < |front| && front[j] == r;
        assert ranked[j].value >= ranked[|ranked| - 1].value;
      }
    }
  }

  /** `scores` ranks by total score what `contributions` mention and `items` shows
      with the wanted categories, at most `size` of them and none that is excluded;
      what it leaves out of that is not better than anything it has. */
  predicate RanksShownBySum(scores: seq<Score>, contributions: seq<Score>, exclude: set<string>, size: nat,
                            items: seq<Item>, wanted: seq<string>)
  {
    && |scores| <= size
    && (forall k :: 0 <= k < |scores| ==>
          && Mentions(contributions, scores[k].id) && scores[k].id !in exclude
          && scores[k].value == TotalScore(contributions, scores[k].id) && Every(scores[k].categories, wanted))
    && (forall j, k :: 0 <= j < k < |scores| ==> scores[j].value >= scores[k].value)
    && (forall c :: 0 <= c < |contributions| && IsLeftOut(contributions[c].id, scores, exclude) ==>
          ShownItem(items, contributions[c].id, wanted).Some? ==>
            forall k :: 0 <= k < |scores| ==> TotalScore(contributions, contributions[c].id) <= scores[k].value)
  }

  lemma ShownEntry(ranked: seq<Score>, items: seq<Item>, wanted: seq<string>, k: nat) returns (j: nat)
    requires k < |Shown(ranked, items, wanted)|
    ensures var s := Shown(ranked, items, wanted)[k];
      && j < |ranked| && ranked[j].id == s.id && ranked[j].value == s.value && Every(s.categories, wanted)
  {
    var scores := Shown(ranked, items, wanted);
    ShownFacts(ranked, items, wanted);
    assert scores[k] in scores;
    var r :| r in ranked && r.id == scores[k].id && r.value == scores[k].value;
    j :| 0 <= j < |ranked| && ranked[j] == r;
  }

  lemma ShownNotLeftOut(ranked: seq<Score>, items: seq<Item>, wanted: seq<string>, id: string)
    requires id !in Ids(Shown(ranked, items, wanted)) && ShownItem(items, id, wanted).Some?
    ensures id !in Ids(ranked)
  {
    ShownFacts(ranked, items, wanted);
  }

  lemma ShownRanks(ranked: seq<Score>, contributions: seq<Score>, exclude: set<string>, size: nat, items: seq<Item>,
                   wanted: seq<string>)
    requires RanksBySum(ranked, contributions, exclude, size)
    ensures RanksShownBySum(Shown(ranked, items, wanted), contributions, exclude, size, items, wanted)
  {
    var scores := Shown(ranked, items, wanted);
    ShownFacts(ranked, items, wanted);
    ShownDescending(ranked, items, wanted);
    forall k: nat | k < |scores|
      ensures Mentions(contributions, scores[k].id) && scores[k].id !in exclude
      ensures scores[k].value == TotalScore(contributions, scores[k].id) && Every(scores[k].categories, wanted)
    {
      var j := ShownEntry(ranked, items, wanted, k);
    }
    forall c, k: nat | 0 <= c < |contributions| && IsLeftOut(contributions[c].id, scores, exclude)
                       && ShownItem(items, contributions[c].id, wanted).Some? && k < |scores|
      ensures TotalScore(contributions, contributions[c].id) <= scores[k].value
    {
      ShownNotLeftOut(ranked, items, wanted, contributions[c].id);
      var j := ShownEntry(ranked, items, wanted, k);
      assert IsLeftOut(contributions[c].id, ranked, exclude);
    }
  }

  /** User-to-user recommendation ranks the items of similar users by the summed
      similarity and then leaves out those that are not shown, so a hidden item can
      take the place of a shown one. */
  lemma UserToUserRanksBySum(q: Request, name: string, exclude: set<string>) returns (ranked: seq<Score>)
    requires SelectsTop(q) && Ask(q, "user-to-user/" + name, exclude).Ok?
    ensures q.stores.similarUsers(name).Ok?
    ensures var liked := AllLiked(q, q.stores.similarUsers(name).value);
      RanksBySum(ranked, liked, exclude, q.config.cacheSize)
    ensures var scores := Ask(q, "user-to-user/" + name, exclude).value.scores;
      var items := q.stores.visibleItems(IdList(ranked));
      && items.Ok? && scores == Shown(ranked, items.value, q.categories)
      && RanksShownBySum(scores, AllLiked(q, q.stores.similarUsers(name).value), exclude, q.config.cacheSize,
                         items.value, q.categories)
      && forall k, w :: 0 <= k < |scores| && 0 <= w < |q.categories| ==> q.categories[w] in scores[k].categories
  {
    ParseFullName(UserToUser(name));
    var users := q.stores.similarUsers(name);
    var t := GatherUsers(q, users.value, exclude, Tables(map[], map[]));
    GatherUsersIsFlat(q, users.value, exclude, Tables(map[], map[]));
    GatherUsersTables(q, users.value, exclude, Tables(map[], map[]));
    var ids := q.stores.top(t.value.scores);
    assert IsSelection(t.value.scores, ids, q.config.cacheSize);
    ranked := Ranked(t.value, ids);
    SelectionRanks(t.value, AllLiked(q, users.value), exclude, ids, ranked, q.config.cacheSize);
    assert IdList(ranked) == ids;
    var items := q.stores.visibleItems(ids);
    VisibleIsShown(t.value.scores, ids, items.value, q.categories, ranked);
    ShownRanks(ranked, AllLiked(q, users.value), exclude, q.config.cacheSize, items.value, q.categories);
  }

  // ------------------------------------------------------------------
  // The recommender
  // ------------------------------------------------------------------

  class Recommender {
    const request: Request
    var excludeSet: set<string>
    var coldstart: bool

    constructor (request: Request)
      ensures this.request == request && excludeSet == InitialExclude(request)
      ensures forall id :: id in excludeSet <==>
        exists f :: f in request.history && f.item == id
          && (f.negative || !(request.config.enableReplacement && request.online))
      ensures coldstart <==> forall f :: f in request.history ==> !f.positive
    {
      this.request := request;
      excludeSet, coldstart := {}, true;
      new;
      for k := 0 to |request.history|
        invariant excludeSet == InitialExclude(request.(history := request.history[..k]))
        invariant coldstart <==> forall f :: f in request.history[..k] ==> !f.positive
      {
        var feedback := request.history[k];
        assert request.history[..k + 1] == request.history[..k] + [feedback];
        if feedback.negative {
          excludeSet := excludeSet + {feedback.item};
        } else if !request.config.enableReplacement || !request.online {
          excludeSet := excludeSet + {feedback.item};
        }
        if feedback.positive {
          coldstart := false;
        }
      }
      assert request.history[..|request.history|] == request.history;
    }

    /** The filter that recommendLatest and recommendExternal write as a loop. */
    method KeepFresh(scores: seq<Score>) returns (r: seq<Score>)
      ensures r == Fresh(scores, excludeSet)
    {
      r := [];
      for k := 0 to |scores|
        invariant r == Fresh(scores[..k], excludeSet)
      {
        assert scores[..k + 1][..k] == scores[..k];
        if scores[k].id !in excludeSet {
          r := r + [scores[k]];
        }
      }
      assert scores[..|scores|] == scores;
    }

    method PositiveContext() returns (items: seq<string>)
      ensures items == Context(request.history, request.online, request.config.contextSize)
    {
      items := [];
      for k := 0 to |request.history|
        invariant items == PositiveItems(request.history[..k])
        invariant request.online ==> items == [] || |items| < request.config.contextSize
      {
        assert request.history[..k + 1][..k] == request.history[..k];
        if request.history[k].positive {
          items := items + [request.history[k].item];
          if request.online && request.config.contextSize <= |items| {
            PositiveItemsPrefix(request.history, k + 1);
            return;
          }
        }
      }
      assert request.history[..|request.history|] == request.history;
    }

    method AddAllNeighbors(neighbors: seq<Score>, scores: map<string, int>, categories: map<string, seq<string>>)
      returns (scores': map<string, int>, categories': map<string, seq<string>>)
      ensures Tables(scores', categories') == AddNeighbors(Tables(scores, categories), neighbors, excludeSet)
    {
      scores', categories' := scores, categories;
      for k := 0 to |neighbors|
        invariant AddNeighbors(Tables(scores', categories'), neighbors[k..], excludeSet)
               == AddNeighbors(Tables(scores, categories), neighbors, excludeSet)
      {
        var neighbor := neighbors[k];
        if neighbor.id !in excludeSet {
          scores' := scores'[neighbor.id := (if neighbor.id in scores' then scores'[neighbor.id] else 0)
                             + neighbor.value];
          categories' := categories'[neighbor.id := neighbor.categories];
        }
      }
    }

    method RecommendItemToItem(name: string) returns (a: Outcome<Answer>)
      requires SelectsTop(request)
      ensures a == AskItemToItem(request, name, excludeSet)
    {
      var config := Find(request.config.itemToItem, name);
      if config.None? {
        return Failed;
      }
      var items := PositiveContext();
      var scores, categories := map[], map[];
      for k := 0 to |items|
        invariant GatherNeighbors(request, name, items[k..], excludeSet, Tables(scores, categories))
               == GatherNeighbors(request, name, items, excludeSet, Tables(map[], map[]))
        invariant TablesAvoid(Tables(scores, categories), excludeSet)
      {
        var neighbors := request.stores.neighbors(name, items[k]);
        if neighbors.Failed? {
          return Failed;
        }
        AddNeighborsTables(Tables(scores, categories), neighbors.value, excludeSet);
        scores, categories := AddAllNeighbors(neighbors.value, scores, categories);
      }
      var ids := request.stores.top(scores);
      assert IsSelection(scores, ids, request.config.cacheSize);
      a := Ok(Answer(Ranked(Tables(scores, categories), ids), config.value.hash));
    }

    method AddAllItems(items: seq<string>, value: int, scores: map<string, int>, ghost t: Tables)
      returns (scores': map<string, int>, ghost t': Tables)
      requires t.scores == scores
      ensures scores' == AddItems(t, items, value, excludeSet).scores && t' == AddItems(t, items, value, excludeSet)
    {
      scores', t' := scores, t;
      for k := 0 to |items|
        invariant AddItems(t', items[k..], value, excludeSet) == AddItems(t, items, value, excludeSet)
        invariant t'.scores == scores'
      {
        if items[k] !in excludeSet {
          t' := Accumulate(t', items[k], value, []);
          scores' := scores'[items[k] := (if items[k] in scores' then scores'[items[k]] else 0) + value];
        }
      }
    }

    method RecommendUserToUser(name: string) returns (a: Outcome<Answer>)
      requires SelectsTop(request)
      ensures a == AskUserToUser(request, name, excludeSet)
    {
      var config := Find(request.config.userToUser, name);
      if config.None? {
        return Failed;
      }
      var users := request.stores.similarUsers(name);
      if users.Failed? {
        return Failed;
      }
      var scores := map[];
      ghost var t := Tables(map[], map[]);
      for k := 0 to |users.value|
        invariant GatherUsers(request, users.value[k..], excludeSet, t)
               == GatherUsers(request, users.value, excludeSet, Tables(map[], map[]))
        invariant t.scores == scores
      {
        var feedbacks := request.stores.positiveItemsOf(users.value[k].id);
        if feedbacks.Failed? {
          return Failed;
        }
        scores, t := AddAllItems(feedbacks.value, users.value[k].value, scores, t);
      }
      var ids := request.stores.top(scores);
      assert IsSelection(scores, ids, request.config.cacheSize);
      var items := request.stores.visibleItems(ids);
      if items.Failed? {
        return Failed;
      }
      var results := KeepVisible(scores, ids, items.value);
      a := Ok(Answer(results, config.value.hash));
    }

    method KeepVisible(scores: map<string, int>, ids: seq<string>, items: seq<Item>) returns (results: seq<Score>)
      requires forall k :: 0 <= k < |ids| ==> ids[k] in scores
      ensures results == Visible(scores, ids, items, request.categories)
    {
      results := [];
      for k := 0 to |ids|
        invariant results == Visible(scores, ids[..k], items, request.categories)
      {
        assert ids[..k + 1][..k] == ids[..k];
        var item := ItemOf(items, ids[k]);
        if item.Some? && Every(item.value.categories, request.categories) {
          results := results + [Score(item.value.id, scores[ids[k]], item.value.categories)];
        }
      }
      assert ids[..|ids|] == ids;
    }

    method RecommendExternal(name: string) returns (a: Outcome<Answer>)
      ensures a == AskExternal(request, name, excludeSet)
    {
      var hash := ExternalHash(request.config, name);
      if request.categories != [] {
        return Ok(Answer([], hash));
      }
      var items := request.stores.pull(name);
      if items.Failed? {
        return Failed;
      }
      var scores := KeepFresh(Unscored(items.value));
      a := Ok(Answer(scores, hash));
    }

    method RecommendLatest() returns (a: Outcome<Answer>)
      ensures a == Listed(request.stores.latest, Ok(LATEST), excludeSet)
    {
      var items := request.stores.latest;
      if items.Failed? {
        return Failed;
      }
      var scores := KeepFresh(items.value);
      a := Ok(Answer(scores, LATEST));
    }

    /** Resolve a name and ask the recommender it stands for. */
    method AskNamed(fullname: string) returns (a: Outcome<Answer>)
      requires SelectsTop(request)
      ensures a == Ask(request, fullname, excludeSet)
    {
      var stores := request.stores;
      match Parse(fullname)
      case None => a := Failed;
      case Some(Collaborative) => a := Listed(stores.collaborative, stores.collaborativeDigest, excludeSet);
      case Some(Latest) => a := RecommendLatest();
      case Some(NonPersonalized(name)) =>
        a := Listed(stores.nonPersonalized(name), stores.nonPersonalizedDigest(name), excludeSet);
      case Some(ItemToItem(name)) => a := RecommendItemToItem(name);
      case Some(UserToUser(name)) => a := RecommendUserToUser(name);
      case Some(External(name)) => a := RecommendExternal(name);
    }

    method RecommendSequential(result: seq<Score>, limit: int, names: seq<string>)
      returns (r: Outcome<seq<Score>>, digest: string, ghost digests: seq<string>)
      requires SelectsTop(request)
      modifies this`excludeSet
      ensures Chain(r, digests, excludeSet) == Sequential(request, names, old(excludeSet), result, [], limit)
      ensures digest == if r.Failed? then "" else Combine(request.stores.md5, digests)
    {
      var all, parts := result, [];
      for k := 0 to |names|
        invariant Sequential(request, names[k..], excludeSet, all, parts, limit)
               == Sequential(request, names, old(excludeSet), result, [], limit)
      {
        var a := AskNamed(names[k]);
        if a.Failed? {
          return Failed, "", parts;
        }
        excludeSet := excludeSet + Ids(a.value.scores);
        all, parts := all + a.value.scores, parts + [a.value.digest];
        if limit > 0 && |all| >= limit {
          return Ok(all[..limit]), Combine(request.stores.md5, parts), parts;
        }
      }
      return Ok(all), Combine(request.stores.md5, parts), parts;
    }

    method TakeCached(scores: seq<Score>) returns (result: seq<Score>)
      modifies this`excludeSet
      ensures (result, excludeSet) == Unseen(scores, old(excludeSet))
    {
      result := [];
      for k := 0 to |scores|
        invariant (result, excludeSet) == Unseen(scores[..k], old(excludeSet))
      {
        assert scores[..k + 1][..k] == scores[..k];
        if scores[k].id !in excludeSet {
          excludeSet := excludeSet + {scores[k].id};
          result := result + [scores[k]];
        }
      }
      assert scores[..|scores|] == scores;
    }

    method Recommend(limit: int) returns (r: Outcome<seq<Score>>)
      requires SelectsTop(request)
      modifies this`excludeSet
      ensures r == Recommended(request, old(excludeSet), limit).result
      ensures excludeSet == Recommended(request, old(excludeSet), limit).exclude
    {
      var result, digest;
      ghost var digests;
      if !request.config.rankerIsNone {
        var scores := request.stores.cached;
        if scores.Failed? {
          return Failed;
        }
        result := TakeCached(scores.value);
      } else {
        var first;
        first, digest, digests := RecommendSequential([], request.config.cacheSize, request.config.rankerRecommenders);
        if first.Failed? {
          return Failed;
        }
        result := first.value;
      }
      if |result| >= limit && limit > 0 {
        return Ok(result[..limit]);
      }
      r, digest, digests := RecommendSequential(result, limit, request.config.fallbackRecommenders);
    }
  }

  /** The items of the context are those of the first positive feedback, in order: all
      of it offline, online at most `contextSize`, but at least one if there is one. */
  lemma ContextTakesFirst(history: seq<Feedback>, online: bool, contextSize: int) returns (at: seq<nat>)
    ensures var items := Context(history, online, contextSize);
      && |items| <= |at|
      && (forall j :: 0 <= j < |at| ==> at[j] < |history|)
      && (forall j, k :: 0 <= j < k < |at| ==> at[j] < at[k])
      && (forall p: nat :: p < |history| ==> (p in at <==> history[p].positive))
      && (forall j :: 0 <= j < |items| ==> items[j] == history[at[j]].item)
      && |items| == (if !online || |at| <= 1 || |at| <= contextSize then |at|
                     else if contextSize <= 1 then 1 else contextSize)
  {
    at := PositiveAt(history);
    PositiveAtIncreases(history);
    PositiveItemsAt(history);
    forall p: nat | p < |history|
      ensures p in at <==> history[p].positive
    {
      PositiveAtComplete(history, p);
    }
  }

  /** The positions of the positive feedback. */
  ghost function PositiveAt(history: seq<Feedback>): seq<nat> {
    if history == [] then []
    else
      var n := |history| - 1;
      PositiveAt(history[..n]) + if history[n].positive then [n] else []
  }

  lemma {:induction false} PositiveAtIncreases(history: seq<Feedback>)
    ensures var at := PositiveAt(history);
      && (forall j :: 0 <= j < |at| ==> at[j] < |history|)
      && (forall j, k :: 0 <= j < k < |at| ==> at[j] < at[k])
  {
    if history != [] {
      var n := |history| - 1;
      PositiveAtIncreases(history[..n]);
      assert PositiveAt(history) == PositiveAt(history[..n]) + if history[n].positive then [n] else [];
    }
  }

  lemma {:induction false} PositiveAtComplete(history: seq<Feedback>, p: nat)
    requires p < |history|
    ensures p in PositiveAt(history) <==> history[p].positive
  {
    var n := |history| - 1;
    PositiveAtIncreases(history[..n]);
    assert PositiveAt(history) == PositiveAt(history[..n]) + if history[n].positive then [n] else [];
    if p < n {
      PositiveAtComplete(history[..n], p);
    }
  }

  lemma {:induction false} PositiveItemsAt(history: seq<Feedback>)
    ensures var at := PositiveAt(history);
      && |at| == |PositiveItems(history)|
      && forall j :: 0 <= j < |at| ==> at[j] < |history| && PositiveItems(history)[j] == history[at[j]].item
  {
    if history != [] {
      PositiveItemsAt(history[..|history| - 1]);
    }
  }

  lemma {:induction false} PositiveItemsPrefix(history: seq<Feedback>, k: nat)
    requires k <= |history|
    ensures PositiveItems(history[..k]) <= PositiveItems(history)
    decreases |history|
  {
    if k < |history| {
      PositiveItemsPrefix(history[..|history| - 1], k);
      assert history[..|history| - 1][..k] == history[..k];
    } else {
      assert history[..k] == history;
    }
  }
}
