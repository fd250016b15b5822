/** The backup stream of the master: three sections of length-prefixed records in
    which section flags and record sizes share one signed 64-bit field, and the
    batched restore that parses it.

    How a record becomes bytes (protobuf with JSON labels) is a parameter; the
    restore is proved for every codec whose records survive encoding. */
module DumpRestore {
  import opened Collections
  import opened Binary

  const EOF: int := 0
  const USER_STREAM: int := -1
  const ITEM_STREAM: int := -2
  const FEEDBACK_STREAM: int := -3

  datatype User = User(userId: string, labels: string, comment: string)

  datatype Item = Item(itemId: string, isHidden: bool, categories: seq<string>, timestamp: int, labels: string,
                       comment: string)

  datatype Feedback = Feedback(feedbackType: string, userId: string, itemId: string, value: real, timestamp: int,
                               labels: string, comment: string)

  datatype Codec<!T> = Codec(encode: T -> seq<byte>, decode: seq<byte> -> Option<T>)

  // ------------------------------------------------------------------
  // Framing
  // ------------------------------------------------------------------

  /** One unit of the stream: a flag (zero or negative), or a record behind its
      positive size. */
  datatype Token = FlagToken(flag: int) | RecordToken(bytes: seq<byte>)

  predicate Writable(t: Token) {
    match t
    case FlagToken(f) => f <= 0 && Fits(f, INT64)
    case RecordToken(b) => |b| > 0 && Fits(|b|, INT64)
  }

  predicate AllWritable(ts: seq<Token>) {
    forall i :: 0 <= i < |ts| ==> Writable(ts[i])
  }

  /** binary.Write of a flag, or writeDump of a record. */
  function Bytes(t: Token): seq<byte>
    requires Writable(t)
  {
    match t
    case FlagToken(f) => Encode(f, INT64)
    case RecordToken(b) => Encode(|b|, INT64) + b
  }

  function Write(ts: seq<Token>): seq<byte>
    requires AllWritable(ts)
  {
    if ts == [] then [] else Bytes(ts[0]) + Write(ts[1..])
  }

  datatype Read = ReadError | ReadToken(token: Token, rest: seq<byte>)

  /** The framing part of readDump. */
  function ReadNext(input: seq<byte>): (r: Read)
    ensures r.ReadToken? ==> |r.rest| < |input|
  {
    if |input| < 8 then ReadError
    else
      var size := Decode(input[..8]);
      if size <= 0 then ReadToken(FlagToken(size), input[8..])
      else if |input| - 8 < size then ReadError
      else ReadToken(RecordToken(input[8..8 + size]), input[8 + size..])
  }

  /** Everything that can be read until the input runs out. */
  function Tokens(input: seq<byte>): seq<Token>
    decreases |input|
  {
    match ReadNext(input)
    case ReadError => []
    case ReadToken(t, rest) => [t] + Tokens(rest)
  }

  lemma ReadBack(t: Token, rest: seq<byte>)
    requires Writable(t)
    ensures ReadNext(Bytes(t) + rest) == ReadToken(t, rest)
  {
    var input := Bytes(t) + rest;
    match t {
      case FlagToken(f) =>
        RoundTrip(f, INT64);
        assert input[..8] == Encode(f, INT64) && input[8..] == rest;
      case RecordToken(b) =>
        RoundTrip(|b|, INT64);
        assert input[..8] == Encode(|b|, INT64);
        assert input[8..8 + |b|] == b && input[8 + |b|..] == rest;
    }
  }

  lemma ReadCut(t: Token, input: seq<byte>)
    requires Writable(t) && input < Bytes(t)
    ensures ReadNext(input) == ReadError
  {
    if |input| >= 8 {
      RoundTrip(|t.bytes|, INT64);
      assert input[..8] == Encode(|t.bytes|, INT64);
    }
  }

  lemma TokensStep(t: Token, rest: seq<byte>)
    requires Writable(t)
    ensures Tokens(Bytes(t) + rest) == [t] + Tokens(rest)
  {
    ReadBack(t, rest);
  }

  lemma WriteStep(ts: seq<Token>, junk: seq<byte>)
    requires AllWritable(ts) && ts != []
    ensures Write(ts) + junk == Bytes(ts[0]) + (Write(ts[1..]) + junk)
  {
  }

  lemma ConsAppend(a: seq<Token>, b: seq<Token>)
    requires a != []
    ensures [a[0]] + (a[1..] + b) == a + b
  {
  }

  /** What was written is read back, whatever follows it. */
  lemma {:induction false} TokensOfWritten(ts: seq<Token>, junk: seq<byte>)
    requires AllWritable(ts)
    ensures Tokens(Write(ts) + junk) == ts + Tokens(junk)
    decreases |ts|
  {
    if ts == [] {
      assert Write(ts) + junk == junk;
    } else {
      WriteStep(ts, junk);
      TokensStep(ts[0], Write(ts[1..]) + junk);
      TokensOfWritten(ts[1..], junk);
      ConsAppend(ts, Tokens(junk));
    }
  }

  /** A stream that has been cut off anywhere yields a proper initial part of its
      units: a cut is never mistaken for something else. */
  lemma {:induction false} TokensOfCut(ts: seq<Token>, input: seq<byte>)
    requires AllWritable(ts) && input < Write(ts)
    ensures Tokens(input) < ts
    decreases |ts|
  {
    var first := Bytes(ts[0]);
    if |input| < |first| {
      ReadCut(ts[0], input);
    } else {
      var rest := input[|first|..];
      CutBehind(first, Write(ts[1..]), input);
      TokensStep(ts[0], rest);
      TokensOfCut(ts[1..], rest);
      assert ts == [ts[0]] + ts[1..];
    }
  }

  lemma CutBehind(first: seq<byte>, tail: seq<byte>, input: seq<byte>)
    requires input < first + tail && |first| <= |input|
    ensures input == first + input[|first|..] && input[|first|..] < tail
  {
    assert first == (first + tail)[..|first|] && tail == (first + tail)[|first|..];
  }

  // ------------------------------------------------------------------
  // The dump
  // ------------------------------------------------------------------

  function RecordTokens<T>(c: Codec<T>, xs: seq<T>): seq<Token> {
    seq(|xs|, i requires 0 <= i < |xs| => RecordToken(c.encode(xs[i])))
  }

  function FeedbackPart(cf: Codec<Feedback>, feedback: seq<Feedback>): seq<Token> {
    RecordTokens(cf, feedback) + [FlagToken(EOF)]
  }

  function ItemPart(ci: Codec<Item>, cf: Codec<Feedback>, items: seq<Item>, feedback: seq<Feedback>): seq<Token> {
    RecordTokens(ci, items) + ([FlagToken(FEEDBACK_STREAM)] + FeedbackPart(cf, feedback))
  }

  function UserPart(cu: Codec<User>, ci: Codec<Item>, cf: Codec<Feedback>, users: seq<User>, items: seq<Item>,
                    feedback: seq<Feedback>): seq<Token>
  {
    RecordTokens(cu, users) + ([FlagToken(ITEM_STREAM)] + ItemPart(ci, cf, items, feedback))
  }

  /** The units that dump writes. */
  function DumpTokens(cu: Codec<User>, ci: Codec<Item>, cf: Codec<Feedback>, users: seq<User>, items: seq<Item>,
                      feedback: seq<Feedback>): seq<Token>
  {
    [FlagToken(USER_STREAM)] + UserPart(cu, ci, cf, users, items, feedback)
  }

  /** The encodings of `xs` decode to `ys`, and none of them is empty: a record
      always carries its labels, which are at least the JSON text of nil. */
  ghost predicate Decodes<T>(c: Codec<T>, xs: seq<T>, ys: seq<T>) {
    && |xs| == |ys|
    && forall i :: 0 <= i < |xs| ==>
         c.decode(c.encode(xs[i])) == Some(ys[i]) && |c.encode(xs[i])| > 0 && Fits(|c.encode(xs[i])|, INT64)
  }

  lemma DumpIsWritable(cu: Codec<User>, ci: Codec<Item>, cf: Codec<Feedback>, users: seq<User>, items: seq<Item>,
                       feedback: seq<Feedback>, restored: seq<Feedback>)
    requires Decodes(cu, users, users) && Decodes(ci, items, items) && Decodes(cf, feedback, restored)
    ensures AllWritable(DumpTokens(cu, ci, cf, users, items, feedback))
  {
    SmallFits(EOF, INT64);
    SmallFits(USER_STREAM, INT64);
    SmallFits(ITEM_STREAM, INT64);
    SmallFits(FEEDBACK_STREAM, INT64);
  }

  // ------------------------------------------------------------------
  // The bytes of a dump
  // ------------------------------------------------------------------

  lemma {:induction false} OnesBelowPower(k: nat, i: nat)
    requires i < k
    ensures UnsignedBytes(Pow256(k) - 1, k)[i] == 255
  {
    if i > 0 {
      OnesBelowPower(k - 1, i - 1);
      assert (256 * Pow256(k - 1) - 1) / 256 == Pow256(k - 1) - 1;
    } else {
      assert (256 * Pow256(k - 1) - 1) % 256 == 255;
    }
  }

  lemma NegativeBytes(n: int, i: nat)
    requires 0 < n <= 256 && i < 7
    ensures Pow256(8) >= 256 && UnsignedBytes(Pow256(8) - n, 8)[0] == 256 - n
    ensures UnsignedBytes(Pow256(8) - n, 8)[i + 1] == 255
  {
    assert Pow256(8) == 256 * Pow256(7);
    assert (256 * Pow256(7) - n) % 256 == (256 - n) % 256;
    assert (256 * Pow256(7) - n) / 256 == Pow256(7) - 1;
    OnesBelowPower(7, i);
  }

  lemma {:induction false} ZeroBytes(k: nat, i: nat)
    requires i < k
    ensures UnsignedBytes(0, k)[i] == 0
  {
    if i > 0 {
      ZeroBytes(k - 1, i - 1);
    }
  }

  /** The four flags as bytes. */
  lemma FlagBytes(flag: int)
    requires flag in [EOF, USER_STREAM, ITEM_STREAM, FEEDBACK_STREAM]
    ensures Fits(flag, INT64)
    ensures Encode(flag, INT64) ==
      match flag
      case 0 => [0, 0, 0, 0, 0, 0, 0, 0]
      case -1 => [255, 255, 255, 255, 255, 255, 255, 255]
      case -2 => [254, 255, 255, 255, 255, 255, 255, 255]
      case _ => [253, 255, 255, 255, 255, 255, 255, 255]
  {
    SmallFits(flag, INT64);
    forall i | 0 <= i < 8
      ensures Encode(flag, INT64)[i] == if flag == 0 then 0 else if i == 0 then 256 + flag else 255
    {
      if flag == 0 {
        ZeroBytes(8, i);
      } else {
        NegativeBytes(-flag, if i == 0 then 0 else i - 1);
      }
    }
  }

  /** Each record behind its size. */
  function Frames<T>(c: Codec<T>, xs: seq<T>): seq<byte>
    requires forall x :: x in xs ==> Fits(|c.encode(x)|, INT64)
  {
    if xs == [] then [] else Encode(|c.encode(xs[0])|, INT64) + c.encode(xs[0]) + Frames(c, xs[1..])
  }

  lemma {:induction false} WriteConcat(a: seq<Token>, b: seq<Token>)
    requires AllWritable(a) && AllWritable(b)
    ensures AllWritable(a + b) && Write(a + b) == Write(a) + Write(b)
  {
    if a == [] {
      assert a + b == b;
    } else {
      WriteConcat(a[1..], b);
      WriteStep(a, Write(b));
      WritePrepend(a[0], a[1..] + b);
      ConsAppend(a, b);
    }
  }

  lemma WritePrepend(t: Token, ts: seq<Token>)
    requires Writable(t) && AllWritable(ts)
    ensures AllWritable([t] + ts) && Write([t] + ts) == Bytes(t) + Write(ts)
  {
    assert ([t] + ts)[1..] == ts;
  }

  lemma {:induction false} WriteRecords<T>(c: Codec<T>, xs: seq<T>, ys: seq<T>)
    requires Decodes(c, xs, ys)
    ensures AllWritable(RecordTokens(c, xs)) && Write(RecordTokens(c, xs)) == Frames(c, xs)
  {
    if xs != [] {
      assert RecordTokens(c, xs)[1..] == RecordTokens(c, xs[1..]);
      WriteRecords(c, xs[1..], ys[1..]);
    }
  }

  lemma WriteFlag(flag: int, rest: seq<Token>)
    requires flag in [EOF, USER_STREAM, ITEM_STREAM, FEEDBACK_STREAM] && AllWritable(rest)
    ensures Fits(flag, INT64) && AllWritable([FlagToken(flag)] + rest)
    ensures Write([FlagToken(flag)] + rest) == Encode(flag, INT64) + Write(rest)
  {
    SmallFits(flag, INT64);
    assert ([FlagToken(flag)] + rest)[1..] == rest;
  }

  /** A dump is the flag -1, the users, -2, the items, -3, the feedback, and 0, all
      numbers in eight bytes. */
  lemma DumpLayout(cu: Codec<User>, ci: Codec<Item>, cf: Codec<Feedback>, users: seq<User>, items: seq<Item>,
                   feedback: seq<Feedback>, restored: seq<Feedback>)
    requires Decodes(cu, users, users) && Decodes(ci, items, items) && Decodes(cf, feedback, restored)
    ensures AllWritable(DumpTokens(cu, ci, cf, users, items, feedback))
    ensures forall flag :: -3 <= flag <= 0 ==> Fits(flag, INT64)
    ensures Write(DumpTokens(cu, ci, cf, users, items, feedback))
         == Encode(-1, INT64) + (Frames(cu, users) + (Encode(-2, INT64) + (Frames(ci, items)
            + (Encode(-3, INT64) + (Frames(cf, feedback) + Encode(0, INT64))))))
  {
    FitsInt64(0);
    WriteFlag(EOF, []);
    assert [FlagToken(EOF)] + [] == [FlagToken(EOF)] && Encode(0, INT64) + [] == Encode(0, INT64);
    WriteRecords(cf, feedback, restored);
    WriteConcat(RecordTokens(cf, feedback), [FlagToken(EOF)]);
    WriteFlag(FEEDBACK_STREAM, FeedbackPart(cf, feedback));
    WriteRecords(ci, items, items);
    WriteConcat(RecordTokens(ci, items), [FlagToken(FEEDBACK_STREAM)] + FeedbackPart(cf, feedback));
    WriteFlag(ITEM_STREAM, ItemPart(ci, cf, items, feedback));
    WriteRecords(cu, users, users);
    WriteConcat(RecordTokens(cu, users), [FlagToken(ITEM_STREAM)] + ItemPart(ci, cf, items, feedback));
    WriteFlag(USER_STREAM, UserPart(cu, ci, cf, users, items, feedback));
    forall flag | -3 <= flag <= 0
      ensures Fits(flag, INT64)
    {
      SmallFits(flag, INT64);
    }
  }

  // ------------------------------------------------------------------
  // The restore
  // ------------------------------------------------------------------

  /** How a section ended: at a flag, or with an error. */
  datatype End = Next(flag: int, rest: seq<Token>) | Failed

  /** `budget` is the number of insertions the data store still accepts. */
  datatype Section<T> = Section(batches: seq<seq<T>>, count: nat, budget: nat, end: End)

  /** The inner loop of Restore over one section, with `pending` not yet inserted. */
  function ReadSection<T>(c: Codec<T>, ts: seq<Token>, batchSize: nat, pending: seq<T>, budget: nat)
    : (r: Section<T>)
    ensures r.end.Next? ==> |r.end.rest| < |ts|
    decreases |ts|
  {
    if ts == [] then Section([], 0, budget, Failed)
    else
      match ts[0]
      case FlagToken(flag) =>
        if pending == [] then Section([], 0, budget, Next(flag, ts[1..]))
        else if budget == 0 then Section([], 0, 0, Failed)
        else Section([pending], 0, budget - 1, Next(flag, ts[1..]))
      case RecordToken(bytes) =>
        match c.decode(bytes)
        case None => Section([], 0, budget, Failed)
        case Some(x) =>
          if |pending| + 1 == batchSize then
            if budget == 0 then Section([], 1, 0, Failed)
            else
              var r := ReadSection(c, ts[1..], batchSize, [], budget - 1);
              r.(batches := [pending + [x]] + r.batches, count := r.count + 1)
          else
            var r := ReadSection(c, ts[1..], batchSize, pending + [x], budget);
            r.(count := r.count + 1)
  }

  datatype Batch = UserBatch(users: seq<User>) | ItemBatch(items: seq<Item>) | FeedbackBatch(feedback: seq<Feedback>)

  /** What a restore did: the successful insertions, the counts it reports, and
      whether it ended without an error. */
  datatype Outcome = Outcome(inserted: seq<Batch>, users: nat, items: nat, feedback: nat, ok: bool)

  function Join(a: Outcome, b: Outcome): Outcome {
    Outcome(a.inserted + b.inserted, a.users + b.users, a.items + b.items, a.feedback + b.feedback, b.ok)
  }

  function UserBatches(bs: seq<seq<User>>): seq<Batch> {
    seq(|bs|, i requires 0 <= i < |bs| => UserBatch(bs[i]))
  }

  function ItemBatches(bs: seq<seq<Item>>): seq<Batch> {
    seq(|bs|, i requires 0 <= i < |bs| => ItemBatch(bs[i]))
  }

  function FeedbackBatches(bs: seq<seq<Feedback>>): seq<Batch> {
    seq(|bs|, i requires 0 <= i < |bs| => FeedbackBatch(bs[i]))
  }

  /** One turn of Restore's outer loop: what it does, and how it goes on. */
  datatype Turn = Turn(here: Outcome, budget: nat, end: End)

  function UserTurn(s: Section<User>): Turn {
    Turn(Outcome(UserBatches(s.batches), s.count, 0, 0, false), s.budget, s.end)
  }

  function ItemTurn(s: Section<Item>): Turn {
    Turn(Outcome(ItemBatches(s.batches), 0, s.count, 0, false), s.budget, s.end)
  }

  function FeedbackTurn(s: Section<Feedback>): Turn {
    Turn(Outcome(FeedbackBatches(s.batches), 0, 0, s.count, false), s.budget, s.end)
  }

  /** The switch over the flag. */
  function RestoreTurn(cu: Codec<User>, ci: Codec<Item>, cf: Codec<Feedback>, flag: int, ts: seq<Token>,
                                batchSize: nat, budget: nat): (t: Turn)
    ensures t.end.Next? ==> |t.end.rest| < |ts|
  {
    if flag == USER_STREAM then UserTurn(ReadSection(cu, ts, batchSize, [], budget))
    else if flag == ITEM_STREAM then ItemTurn(ReadSection(ci, ts, batchSize, [], budget))
    else if flag == FEEDBACK_STREAM then FeedbackTurn(ReadSection(cf, ts, batchSize, [], budget))
    else Turn(Outcome([], 0, 0, 0, false), budget, Failed)
  }

  /** The outer loop of Restore, at a flag. */
  function RestoreFrom(cu: Codec<User>, ci: Codec<Item>, cf: Codec<Feedback>, flag: int, ts: seq<Token>,
                       batchSize: nat, budget: nat): Outcome
    decreases |ts|
  {
    if flag == EOF then Outcome([], 0, 0, 0, true)
    else
      var t := RestoreTurn(cu, ci, cf, flag, ts, batchSize, budget);
      if t.end.Failed? then t.here
      else Join(t.here, RestoreFrom(cu, ci, cf, t.end.flag, t.end.rest, batchSize, t.budget))
  }

  /** Restore on a whole stream; it must start with a flag. */
  function RestoreResult(cu: Codec<User>, ci: Codec<Item>, cf: Codec<Feedback>, ts: seq<Token>, batchSize: nat,
                         budget: nat): Outcome
  {
    if ts == [] || ts[0].RecordToken? then Outcome([], 0, 0, 0, false)
    else RestoreFrom(cu, ci, cf, ts[0].flag, ts[1..], batchSize, budget)
  }

  // ------------------------------------------------------------------
  // Batches
  // ------------------------------------------------------------------

  /** The insertions a section of records `ys` leads to. */
  function Batches<T>(ys: seq<T>, batchSize: nat, pending: seq<T>): seq<seq<T>> {
    if ys == [] then (if pending == [] then [] else [pending])
    else if |pending| + 1 == batchSize then [pending + [ys[0]]] + Batches(ys[1..], batchSize, [])
    else Batches(ys[1..], batchSize, pending + [ys[0]])
  }

  function Flatten<T>(bs: seq<seq<T>>): seq<T> {
    if bs == [] then [] else bs[0] + Flatten(bs[1..])
  }

  /** The batches hold the records in order; none is empty or larger than the
      batch size, and all but the last have exactly that size. */
  lemma {:induction false} BatchesPartition<T>(ys: seq<T>, batchSize: nat, pending: seq<T>)
    requires |pending| < batchSize
    ensures Flatten(Batches(ys, batchSize, pending)) == pending + ys
    ensures var bs := Batches(ys, batchSize, pending);
      forall i :: 0 <= i < |bs| ==> 0 < |bs[i]| <= batchSize && (i < |bs| - 1 ==> |bs[i]| == batchSize)
    decreases |ys|
  {
    if ys == [] {
      if pending != [] {
        assert Flatten([pending]) == pending + Flatten([]);
      }
    } else if |pending| + 1 == batchSize {
      BatchesPartition(ys[1..], batchSize, []);
      assert pending + [ys[0]] + ys[1..] == pending + ys;
    } else {
      BatchesPartition(ys[1..], batchSize, pending + [ys[0]]);
      assert pending + [ys[0]] + ys[1..] == pending + ys;
    }
  }

  /** A complete section is read back in full, in order, and leaves the flag that
      follows it. */
  lemma {:induction false} SectionComplete<T>(c: Codec<T>, xs: seq<T>, ys: seq<T>, f: int, tail: seq<Token>,
                                              batchSize: nat, pending: seq<T>, budget: nat)
    requires Decodes(c, xs, ys) && |pending| < batchSize
    requires |Batches(ys, batchSize, pending)| <= budget
    ensures ReadSection(c, RecordTokens(c, xs) + ([FlagToken(f)] + tail), batchSize, pending, budget)
         == Section(Batches(ys, batchSize, pending), |ys|, budget - |Batches(ys, batchSize, pending)|, Next(f, tail))
    decreases |xs|
  {
    var ts := RecordTokens(c, xs) + ([FlagToken(f)] + tail);
    if xs == [] {
      assert ts[0] == FlagToken(f) && ts[1..] == tail;
    } else {
      assert ts[0] == RecordToken(c.encode(xs[0]));
      assert ts[1..] == RecordTokens(c, xs[1..]) + ([FlagToken(f)] + tail);
      if |pending| + 1 == batchSize {
        SectionComplete(c, xs[1..], ys[1..], f, tail, batchSize, [], budget - 1);
      } else {
        SectionComplete(c, xs[1..], ys[1..], f, tail, batchSize, pending + [ys[0]], budget);
      }
    }
  }

  /** Only an initial part of the records was inserted, and the section ended
      without an error only if it was complete. */
  ghost predicate InsertedPrefix<T>(ys: seq<T>, f: int, ts: seq<Token>, pending: seq<T>, r: Section<T>) {
    && Flatten(r.batches) <= pending + ys
    && (r.end.Next? ==>
          |ts| > |ys| && r.end == Next(f, ts[|ys| + 1..]) && Flatten(r.batches) == pending + ys)
  }

  lemma AfterRecord<T>(y: T, ys: seq<T>, f: int, t: Token, ts: seq<Token>, pending: seq<T>, r: Section<T>)
    requires InsertedPrefix(ys, f, ts, pending + [y], r)
    ensures InsertedPrefix([y] + ys, f, [t] + ts, pending, r.(count := r.count + 1))
  {
    assert pending + [y] + ys == pending + ([y] + ys);
    if r.end.Next? {
      assert ([t] + ts)[|[y] + ys| + 1..] == ts[|ys| + 1..];
    }
  }

  lemma AfterBatch<T>(y: T, ys: seq<T>, f: int, t: Token, ts: seq<Token>, pending: seq<T>, r: Section<T>)
    requires InsertedPrefix(ys, f, ts, [], r)
    ensures InsertedPrefix([y] + ys, f, [t] + ts, pending,
                           r.(batches := [pending + [y]] + r.batches, count := r.count + 1))
  {
    assert [] + ys == ys;
    assert Flatten([pending + [y]] + r.batches) == pending + [y] + Flatten(r.batches);
    assert pending + [y] + ys == pending + ([y] + ys);
    if r.end.Next? {
      assert ([t] + ts)[|[y] + ys| + 1..] == ts[|ys| + 1..];
    }
  }

  /** On any initial part of a section and what follows it, and for any failing
      insertion. */
  lemma {:induction false} SectionOnPrefix<T>(c: Codec<T>, xs: seq<T>, ys: seq<T>, f: int, tail: seq<Token>,
                                              ts: seq<Token>, batchSize: nat, pending: seq<T>, budget: nat)
    requires Decodes(c, xs, ys) && |pending| < batchSize
    requires ts <= RecordTokens(c, xs) + ([FlagToken(f)] + tail)
    ensures InsertedPrefix(ys, f, ts, pending, ReadSection(c, ts, batchSize, pending, budget))
    decreases |xs|
  {
    if ts == [] {
    } else if xs == [] {
      assert ts[0] == FlagToken(f);
      assert Flatten([pending]) == pending + Flatten([]);
    } else {
      assert ts[0] == RecordToken(c.encode(xs[0])) && ts == [ts[0]] + ts[1..] && ys == [ys[0]] + ys[1..];
      assert ts[1..] <= RecordTokens(c, xs[1..]) + ([FlagToken(f)] + tail);
      if |pending| + 1 != batchSize {
        SectionOnPrefix(c, xs[1..], ys[1..], f, tail, ts[1..], batchSize, pending + [ys[0]], budget);
        AfterRecord(ys[0], ys[1..], f, ts[0], ts[1..], pending,
                    ReadSection(c, ts[1..], batchSize, pending + [ys[0]], budget));
      } else if budget > 0 {
        SectionOnPrefix(c, xs[1..], ys[1..], f, tail, ts[1..], batchSize, [], budget - 1);
        AfterBatch(ys[0], ys[1..], f, ts[0], ts[1..], pending, ReadSection(c, ts[1..], batchSize, [], budget - 1));
      }
    }
  }

  // ------------------------------------------------------------------
  // The whole stream
  // ------------------------------------------------------------------

  lemma FeedbackStage(cu: Codec<User>, ci: Codec<Item>, cf: Codec<Feedback>, ts: seq<Token>, f: int,
                      tail: seq<Token>, batchSize: nat, budget: nat, s: Section<Feedback>, after: Outcome)
    requires s == ReadSection(cf, ts, batchSize, [], budget) && s.end == Next(f, tail)
    requires after == RestoreFrom(cu, ci, cf, f, tail, batchSize, s.budget)
    ensures RestoreFrom(cu, ci, cf, FEEDBACK_STREAM, ts, batchSize, budget)
         == Join(Outcome(FeedbackBatches(s.batches), 0, 0, s.count, false), after)
  {
    assert RestoreTurn(cu, ci, cf, FEEDBACK_STREAM, ts, batchSize, budget) == FeedbackTurn(s);
  }

  lemma ItemStage(cu: Codec<User>, ci: Codec<Item>, cf: Codec<Feedback>, ts: seq<Token>, f: int, tail: seq<Token>,
                  batchSize: nat, budget: nat, s: Section<Item>, after: Outcome)
    requires s == ReadSection(ci, ts, batchSize, [], budget) && s.end == Next(f, tail)
    requires after == RestoreFrom(cu, ci, cf, f, tail, batchSize, s.budget)
    ensures RestoreFrom(cu, ci, cf, ITEM_STREAM, ts, batchSize, budget)
         == Join(Outcome(ItemBatches(s.batches), 0, s.count, 0, false), after)
  {
    assert RestoreTurn(cu, ci, cf, ITEM_STREAM, ts, batchSize, budget) == ItemTurn(s);
  }

  lemma UserStage(cu: Codec<User>, ci: Codec<Item>, cf: Codec<Feedback>, ts: seq<Token>, f: int, tail: seq<Token>,
                  batchSize: nat, budget: nat, s: Section<User>, after: Outcome)
    requires s == ReadSection(cu, ts, batchSize, [], budget) && s.end == Next(f, tail)
    requires after == RestoreFrom(cu, ci, cf, f, tail, batchSize, s.budget)
    ensures RestoreFrom(cu, ci, cf, USER_STREAM, ts, batchSize, budget)
         == Join(Outcome(UserBatches(s.batches), s.count, 0, 0, false), after)
  {
    assert RestoreTurn(cu, ci, cf, USER_STREAM, ts, batchSize, budget) == UserTurn(s);
  }

  lemma FeedbackComplete(cu: Codec<User>, ci: Codec<Item>, cf: Codec<Feedback>, feedback: seq<Feedback>,
                         restored: seq<Feedback>, junk: seq<Token>, batchSize: nat, budget: nat)
    requires Decodes(cf, feedback, restored) && batchSize > 0
    requires |Batches(restored, batchSize, [])| <= budget
    ensures RestoreFrom(cu, ci, cf, FEEDBACK_STREAM, RecordTokens(cf, feedback) + ([FlagToken(EOF)] + junk),
                        batchSize, budget)
         == Outcome(FeedbackBatches(Batches(restored, batchSize, [])), 0, 0, |feedback|, true)
  {
    var bs := Batches(restored, batchSize, []);
    SectionComplete(cf, feedback, restored, EOF, junk, batchSize, [], budget);
    FeedbackStage(cu, ci, cf, RecordTokens(cf, feedback) + ([FlagToken(EOF)] + junk), EOF, junk, batchSize, budget,
                  Section(bs, |restored|, budget - |bs|, Next(EOF, junk)), Outcome([], 0, 0, 0, true));
    assert FeedbackBatches(bs) + [] == FeedbackBatches(bs);
  }

  lemma ItemsComplete(cu: Codec<User>, ci: Codec<Item>, cf: Codec<Feedback>, items: seq<Item>, tail: seq<Token>,
                      batchSize: nat, budget: nat, after: Outcome)
    requires Decodes(ci, items, items) && batchSize > 0
    requires |Batches(items, batchSize, [])| <= budget
    requires after == RestoreFrom(cu, ci, cf, FEEDBACK_STREAM, tail, batchSize,
                                  budget - |Batches(items, batchSize, [])|)
    ensures RestoreFrom(cu, ci, cf, ITEM_STREAM, RecordTokens(ci, items) + ([FlagToken(FEEDBACK_STREAM)] + tail),
                        batchSize, budget)
         == Join(Outcome(ItemBatches(Batches(items, batchSize, [])), 0, |items|, 0, false), after)
  {
    var bs := Batches(items, batchSize, []);
    SectionComplete(ci, items, items, FEEDBACK_STREAM, tail, batchSize, [], budget);
    ItemStage(cu, ci, cf, RecordTokens(ci, items) + ([FlagToken(FEEDBACK_STREAM)] + tail), FEEDBACK_STREAM, tail,
              batchSize, budget, Section(bs, |items|, budget - |bs|, Next(FEEDBACK_STREAM, tail)), after);
  }

  lemma UsersComplete(cu: Codec<User>, ci: Codec<Item>, cf: Codec<Feedback>, users: seq<User>, tail: seq<Token>,
                      batchSize: nat, budget: nat, after: Outcome)
    requires Decodes(cu, users, users) && batchSize > 0
    requires |Batches(users, batchSize, [])| <= budget
    requires after == RestoreFrom(cu, ci, cf, ITEM_STREAM, tail, batchSize, budget - |Batches(users, batchSize, [])|)
    ensures RestoreFrom(cu, ci, cf, USER_STREAM, RecordTokens(cu, users) + ([FlagToken(ITEM_STREAM)] + tail),
                        batchSize, budget)
         == Join(Outcome(UserBatches(Batches(users, batchSize, [])), |users|, 0, 0, false), after)
  {
    var bs := Batches(users, batchSize, []);
    SectionComplete(cu, users, users, ITEM_STREAM, tail, batchSize, [], budget);
    UserStage(cu, ci, cf, RecordTokens(cu, users) + ([FlagToken(ITEM_STREAM)] + tail), ITEM_STREAM, tail,
              batchSize, budget, Section(bs, |users|, budget - |bs|, Next(ITEM_STREAM, tail)), after);
  }

  /** The units behind the first flag of a dump, up to what follows the dump. */
  function Sections(cu: Codec<User>, ci: Codec<Item>, cf: Codec<Feedback>, users: seq<User>, items: seq<Item>,
                    feedback: seq<Feedback>, junk: seq<Token>): seq<Token>
  {
    RecordTokens(cu, users) + ([FlagToken(ITEM_STREAM)]
    + (RecordTokens(ci, items) + ([FlagToken(FEEDBACK_STREAM)]
    + (RecordTokens(cf, feedback) + ([FlagToken(EOF)] + junk)))))
  }

  lemma RestoreOfSections(cu: Codec<User>, ci: Codec<Item>, cf: Codec<Feedback>,
                        users: seq<User>, items: seq<Item>, feedback: seq<Feedback>, restored: seq<Feedback>,
                        junk: seq<Token>, batchSize: nat, budget: nat)
    requires Decodes(cu, users, users) && Decodes(ci, items, items) && Decodes(cf, feedback, restored)
    requires batchSize > 0
    requires |Batches(users, batchSize, [])| + |Batches(items, batchSize, [])| + |Batches(restored, batchSize, [])|
          <= budget
    ensures RestoreFrom(cu, ci, cf, USER_STREAM, Sections(cu, ci, cf, users, items, feedback, junk), batchSize, budget)
         == Outcome(UserBatches(Batches(users, batchSize, [])) + (ItemBatches(Batches(items, batchSize, []))
                      + FeedbackBatches(Batches(restored, batchSize, []))),
                    |users|, |items|, |feedback|, true)
  {
    var bu, bi, bf := Batches(users, batchSize, []), Batches(items, batchSize, []), Batches(restored, batchSize, []);
    var rest := RecordTokens(ci, items)
      + ([FlagToken(FEEDBACK_STREAM)] + (RecordTokens(cf, feedback) + ([FlagToken(EOF)] + junk)));
    var second := Outcome(ItemBatches(bi) + FeedbackBatches(bf), 0, |items|, |feedback|, true);
    RestoreOfRest(cu, ci, cf, items, feedback, restored, junk, batchSize, budget - |bu|);
    UsersComplete(cu, ci, cf, users, rest, batchSize, budget, second);
  }

  /** What follows the users. */
  lemma RestoreOfRest(cu: Codec<User>, ci: Codec<Item>, cf: Codec<Feedback>,
                      items: seq<Item>, feedback: seq<Feedback>, restored: seq<Feedback>,
                      junk: seq<Token>, batchSize: nat, budget: nat)
    requires Decodes(ci, items, items) && Decodes(cf, feedback, restored) && batchSize > 0
    requires |Batches(items, batchSize, [])| + |Batches(restored, batchSize, [])| <= budget
    ensures RestoreFrom(cu, ci, cf, ITEM_STREAM,
                        RecordTokens(ci, items)
                        + ([FlagToken(FEEDBACK_STREAM)] + (RecordTokens(cf, feedback) + ([FlagToken(EOF)] + junk))),
                        batchSize, budget)
         == Outcome(ItemBatches(Batches(items, batchSize, [])) + FeedbackBatches(Batches(restored, batchSize, [])),
                    0, |items|, |feedback|, true)
  {
    var bi, bf := Batches(items, batchSize, []), Batches(restored, batchSize, []);
    var rest := RecordTokens(cf, feedback) + ([FlagToken(EOF)] + junk);
    var third := Outcome(FeedbackBatches(bf), 0, 0, |feedback|, true);
    FeedbackComplete(cu, ci, cf, feedback, restored, junk, batchSize, budget - |bi|);
    ItemsComplete(cu, ci, cf, items, rest, batchSize, budget, third);
  }

  lemma TokensSplit(cu: Codec<User>, ci: Codec<Item>, cf: Codec<Feedback>, users: seq<User>, items: seq<Item>,
                    feedback: seq<Feedback>, junk: seq<Token>)
    ensures var ts := DumpTokens(cu, ci, cf, users, items, feedback) + junk;
      && ts[0] == FlagToken(USER_STREAM)
      && ts[1..] == Sections(cu, ci, cf, users, items, feedback, junk)
  {
  }

  /** Restoring a dump, whatever bytes follow it, inserts exactly the dumped
      records in order and in batches, reports their numbers and ends without an
      error, if the data store accepts all insertions. */
  lemma RestoreOfDump(cu: Codec<User>, ci: Codec<Item>, cf: Codec<Feedback>,
                      users: seq<User>, items: seq<Item>, feedback: seq<Feedback>, restored: seq<Feedback>,
                      junk: seq<byte>, batchSize: nat, budget: nat)
    requires Decodes(cu, users, users) && Decodes(ci, items, items) && Decodes(cf, feedback, restored)
    requires batchSize > 0
    requires |Batches(users, batchSize, [])| + |Batches(items, batchSize, [])| + |Batches(restored, batchSize, [])|
          <= budget
    ensures AllWritable(DumpTokens(cu, ci, cf, users, items, feedback))
    ensures RestoreResult(cu, ci, cf, Tokens(Write(DumpTokens(cu, ci, cf, users, items, feedback)) + junk),
                          batchSize, budget)
         == Outcome(UserBatches(Batches(users, batchSize, [])) + (ItemBatches(Batches(items, batchSize, []))
                      + FeedbackBatches(Batches(restored, batchSize, []))),
                    |users|, |items|, |feedback|, true)
  {
    DumpIsWritable(cu, ci, cf, users, items, feedback, restored);
    TokensOfWritten(DumpTokens(cu, ci, cf, users, items, feedback), junk);
    TokensSplit(cu, ci, cf, users, items, feedback, Tokens(junk));
    RestoreOfSections(cu, ci, cf, users, items, feedback, restored, Tokens(junk), batchSize, budget);
  }

  datatype Record = UserRecord(user: User) | ItemRecord(item: Item) | FeedbackRecord(feedback: Feedback)

  function TagUsers(us: seq<User>): seq<Record> {
    seq(|us|, i requires 0 <= i < |us| => UserRecord(us[i]))
  }

  function TagItems(things: seq<Item>): seq<Record> {
    seq(|things|, i requires 0 <= i < |things| => ItemRecord(things[i]))
  }

  function TagFeedback(fs: seq<Feedback>): seq<Record> {
    seq(|fs|, i requires 0 <= i < |fs| => FeedbackRecord(fs[i]))
  }

  function BatchRecords(b: Batch): seq<Record> {
    match b
    case UserBatch(us) => TagUsers(us)
    case ItemBatch(things) => TagItems(things)
    case FeedbackBatch(fs) => TagFeedback(fs)
  }

  /** All records of a log of insertions, in order. */
  function Records(log: seq<Batch>): seq<Record> {
    if log == [] then [] else BatchRecords(log[0]) + Records(log[1..])
  }

  lemma {:induction false} RecordsConcat(a: seq<Batch>, b: seq<Batch>)
    ensures Records(a + b) == Records(a) + Records(b)
  {
    if a == [] {
      assert a + b == b;
    } else {
      assert (a + b)[1..] == a[1..] + b && (a + b)[0] == a[0];
      RecordsConcat(a[1..], b);
    }
  }

  lemma {:induction false} RecordsOfUsers(bs: seq<seq<User>>)
    ensures Records(UserBatches(bs)) == TagUsers(Flatten(bs))
  {
    if bs != [] {
      RecordsOfUsers(bs[1..]);
      assert UserBatches(bs)[1..] == UserBatches(bs[1..]);
      assert TagUsers(bs[0] + Flatten(bs[1..])) == TagUsers(bs[0]) + TagUsers(Flatten(bs[1..]));
    }
  }

  lemma {:induction false} RecordsOfItems(bs: seq<seq<Item>>)
    ensures Records(ItemBatches(bs)) == TagItems(Flatten(bs))
  {
    if bs != [] {
      RecordsOfItems(bs[1..]);
      assert ItemBatches(bs)[1..] == ItemBatches(bs[1..]);
      assert TagItems(bs[0] + Flatten(bs[1..])) == TagItems(bs[0]) + TagItems(Flatten(bs[1..]));
    }
  }

  lemma {:induction false} RecordsOfFeedback(bs: seq<seq<Feedback>>)
    ensures Records(FeedbackBatches(bs)) == TagFeedback(Flatten(bs))
  {
    if bs != [] {
      RecordsOfFeedback(bs[1..]);
      assert FeedbackBatches(bs)[1..] == FeedbackBatches(bs[1..]);
      assert TagFeedback(bs[0] + Flatten(bs[1..])) == TagFeedback(bs[0]) + TagFeedback(Flatten(bs[1..]));
    }
  }

  /** The restore stopped with an error after inserting an initial part of `all`. */
  predicate StoppedWithin(r: Outcome, all: seq<Record>) {
    !r.ok && Records(r.inserted) <= all
  }

  lemma JoinWithin(first: seq<Batch>, users: nat, items: nat, feedback: nat, after: Outcome, done: seq<Record>,
                   rest: seq<Record>)
    requires Records(first) == done && StoppedWithin(after, rest)
    ensures StoppedWithin(Join(Outcome(first, users, items, feedback, false), after), done + rest)
  {
    RecordsConcat(first, after.inserted);
  }

  lemma FeedbackCut(cu: Codec<User>, ci: Codec<Item>, cf: Codec<Feedback>, feedback: seq<Feedback>,
                    restored: seq<Feedback>, ts: seq<Token>, batchSize: nat, budget: nat)
    requires Decodes(cf, feedback, restored) && batchSize > 0
    requires ts < FeedbackPart(cf, feedback)
    ensures StoppedWithin(RestoreFrom(cu, ci, cf, FEEDBACK_STREAM, ts, batchSize, budget), TagFeedback(restored))
  {
    assert [FlagToken(EOF)] + [] == [FlagToken(EOF)];
    SectionOnPrefix(cf, feedback, restored, EOF, [], ts, batchSize, [], budget);
    var s := ReadSection(cf, ts, batchSize, [], budget);
    RecordsOfFeedback(s.batches);
    assert [] + restored == restored;
  }

  lemma ItemsCut(cu: Codec<User>, ci: Codec<Item>, cf: Codec<Feedback>, items: seq<Item>,
                 feedback: seq<Feedback>, restored: seq<Feedback>, ts: seq<Token>, batchSize: nat, budget: nat)
    requires Decodes(ci, items, items) && Decodes(cf, feedback, restored) && batchSize > 0
    requires ts < ItemPart(ci, cf, items, feedback)
    ensures StoppedWithin(RestoreFrom(cu, ci, cf, ITEM_STREAM, ts, batchSize, budget),
                          TagItems(items) + TagFeedback(restored))
  {
    var tail := FeedbackPart(cf, feedback);
    SectionOnPrefix(ci, items, items, FEEDBACK_STREAM, tail, ts, batchSize, [], budget);
    var s := ReadSection(ci, ts, batchSize, [], budget);
    RecordsOfItems(s.batches);
    assert [] + items == items;
    if s.end.Next? {
      assert tail == ItemPart(ci, cf, items, feedback)[|items| + 1..];
      FeedbackCut(cu, ci, cf, feedback, restored, s.end.rest, batchSize, s.budget);
      var after := RestoreFrom(cu, ci, cf, FEEDBACK_STREAM, s.end.rest, batchSize, s.budget);
      ItemStage(cu, ci, cf, ts, FEEDBACK_STREAM, s.end.rest, batchSize, budget, s, after);
      JoinWithin(ItemBatches(s.batches), 0, s.count, 0, after, TagItems(items), TagFeedback(restored));
    }
  }

  lemma UsersCut(cu: Codec<User>, ci: Codec<Item>, cf: Codec<Feedback>, users: seq<User>, items: seq<Item>,
                 feedback: seq<Feedback>, restored: seq<Feedback>, ts: seq<Token>, batchSize: nat, budget: nat)
    requires Decodes(cu, users, users) && Decodes(ci, items, items) && Decodes(cf, feedback, restored) && batchSize > 0
    requires ts < UserPart(cu, ci, cf, users, items, feedback)
    ensures StoppedWithin(RestoreFrom(cu, ci, cf, USER_STREAM, ts, batchSize, budget),
                          TagUsers(users) + (TagItems(items) + TagFeedback(restored)))
  {
    var tail := ItemPart(ci, cf, items, feedback);
    SectionOnPrefix(cu, users, users, ITEM_STREAM, tail, ts, batchSize, [], budget);
    var s := ReadSection(cu, ts, batchSize, [], budget);
    RecordsOfUsers(s.batches);
    assert [] + users == users;
    if s.end.Next? {
      assert tail == UserPart(cu, ci, cf, users, items, feedback)[|users| + 1..];
      ItemsCut(cu, ci, cf, items, feedback, restored, s.end.rest, batchSize, s.budget);
      var after := RestoreFrom(cu, ci, cf, ITEM_STREAM, s.end.rest, batchSize, s.budget);
      UserStage(cu, ci, cf, ts, ITEM_STREAM, s.end.rest, batchSize, budget, s, after);
      JoinWithin(UserBatches(s.batches), s.count, 0, 0, after, TagUsers(users),
                 TagItems(items) + TagFeedback(restored));
    }
  }

  /** A dump that has been cut off anywhere is reported as an error, and what was
      inserted by then is an initial part of the dumped records, also when the
      data store refuses an insertion. */
  lemma RestoreOfTruncatedDump(cu: Codec<User>, ci: Codec<Item>, cf: Codec<Feedback>,
                               users: seq<User>, items: seq<Item>, feedback: seq<Feedback>, restored: seq<Feedback>,
                               input: seq<byte>, batchSize: nat, budget: nat)
    requires Decodes(cu, users, users) && Decodes(ci, items, items) && Decodes(cf, feedback, restored) && batchSize > 0
    requires AllWritable(DumpTokens(cu, ci, cf, users, items, feedback))
    requires input < Write(DumpTokens(cu, ci, cf, users, items, feedback))
    ensures StoppedWithin(RestoreResult(cu, ci, cf, Tokens(input), batchSize, budget),
                          TagUsers(users) + (TagItems(items) + TagFeedback(restored)))
  {
    TokensOfCut(DumpTokens(cu, ci, cf, users, items, feedback), input);
    var ts := Tokens(input);
    if ts != [] {
      assert ts[0] == FlagToken(USER_STREAM) && ts[1..] < UserPart(cu, ci, cf, users, items, feedback);
      UsersCut(cu, ci, cf, users, items, feedback, restored, ts[1..], batchSize, budget);
    }
  }

  /** That no encoding is empty is needed: the size of an empty record looks like
      the end of the stream, and the restore ends there without an error. */
  lemma EmptyRecordEndsRestore(cu: Codec<User>, ci: Codec<Item>, cf: Codec<Feedback>, rest: seq<byte>,
                               batchSize: nat, budget: nat)
    requires Fits(USER_STREAM, INT64) && Fits(0, INT64)
    ensures RestoreResult(cu, ci, cf, Tokens(Encode(USER_STREAM, INT64) + (Encode(0, INT64) + rest)), batchSize, budget)
         == Outcome([], 0, 0, 0, true)
  {
    TokensStep(FlagToken(USER_STREAM), Encode(0, INT64) + rest);
    TokensStep(FlagToken(0), rest);
    EmptySectionEnds(cu, ci, cf, Tokens(rest), batchSize, budget);
    var ts := Tokens(Encode(USER_STREAM, INT64) + (Encode(0, INT64) + rest));
    assert ts[1..] == [FlagToken(0)] + Tokens(rest);
  }

  lemma EmptySectionEnds(cu: Codec<User>, ci: Codec<Item>, cf: Codec<Feedback>, tail: seq<Token>, batchSize: nat,
                         budget: nat)
    ensures RestoreFrom(cu, ci, cf, USER_STREAM, [FlagToken(EOF)] + tail, batchSize, budget)
         == Outcome([], 0, 0, 0, true)
  {
    var ts := [FlagToken(EOF)] + tail;
    assert ts[1..] == tail;
    UserStage(cu, ci, cf, ts, EOF, tail, batchSize, budget, Section([], 0, budget, Next(EOF, tail)),
              Outcome([], 0, 0, 0, true));
  }

  /** A stream that starts with anything but one of the four flags is refused before
      anything is inserted. */
  lemma UnknownFlagIsRefused(cu: Codec<User>, ci: Codec<Item>, cf: Codec<Feedback>, flag: int, rest: seq<byte>,
                             batchSize: nat, budget: nat)
    requires Fits(flag, INT64) && flag !in [0, -1, -2, -3]
    ensures RestoreResult(cu, ci, cf, Tokens(Encode(flag, INT64) + rest), batchSize, budget)
         == Outcome([], 0, 0, 0, false)
  {
    if flag < 0 {
      TokensStep(FlagToken(flag), rest);
    } else {
      RoundTrip(flag, INT64);
      assert (Encode(flag, INT64) + rest)[..8] == Encode(flag, INT64);
    }
  }

  // ------------------------------------------------------------------
  // A data store that fails
  // ------------------------------------------------------------------

  /** A section with more batches than the data store accepts. */
  lemma {:induction false} SectionRunsOut<T>(c: Codec<T>, xs: seq<T>, ys: seq<T>, f: int, tail: seq<Token>,
                                             batchSize: nat, pending: seq<T>, budget: nat)
    requires Decodes(c, xs, ys) && |pending| < batchSize
    requires budget < |Batches(ys, batchSize, pending)|
    ensures var r := ReadSection(c, RecordTokens(c, xs) + ([FlagToken(f)] + tail), batchSize, pending, budget);
      r.end.Failed? && r.batches == Batches(ys, batchSize, pending)[..budget]
    decreases |xs|
  {
    var ts := RecordTokens(c, xs) + ([FlagToken(f)] + tail);
    if xs == [] {
      assert ts[0] == FlagToken(f) && ts[1..] == tail;
    } else {
      assert ts[0] == RecordToken(c.encode(xs[0]));
      assert ts[1..] == RecordTokens(c, xs[1..]) + ([FlagToken(f)] + tail);
      if |pending| + 1 != batchSize {
        SectionRunsOut(c, xs[1..], ys[1..], f, tail, batchSize, pending + [ys[0]], budget);
      } else if budget > 0 {
        SectionRunsOut(c, xs[1..], ys[1..], f, tail, batchSize, [], budget - 1);
      }
    }
  }

  function AllBatches(users: seq<User>, items: seq<Item>, feedback: seq<Feedback>, batchSize: nat): seq<Batch> {
    UserBatches(Batches(users, batchSize, [])) + (ItemBatches(Batches(items, batchSize, []))
    + FeedbackBatches(Batches(feedback, batchSize, [])))
  }

  lemma FeedbackRunsOut(cu: Codec<User>, ci: Codec<Item>, cf: Codec<Feedback>, feedback: seq<Feedback>,
                        restored: seq<Feedback>, junk: seq<Token>, batchSize: nat, budget: nat)
    requires Decodes(cf, feedback, restored) && batchSize > 0 && budget < |Batches(restored, batchSize, [])|
    ensures var r := RestoreFrom(cu, ci, cf, FEEDBACK_STREAM, RecordTokens(cf, feedback) + ([FlagToken(EOF)] + junk),
                                 batchSize, budget);
      !r.ok && r.inserted == FeedbackBatches(Batches(restored, batchSize, []))[..budget]
  {
    SectionRunsOut(cf, feedback, restored, EOF, junk, batchSize, [], budget);
    assert FeedbackBatches(Batches(restored, batchSize, [])[..budget])
        == FeedbackBatches(Batches(restored, batchSize, []))[..budget];
  }

  lemma RestRunsOut(cu: Codec<User>, ci: Codec<Item>, cf: Codec<Feedback>,
                    items: seq<Item>, feedback: seq<Feedback>, restored: seq<Feedback>,
                    junk: seq<Token>, batchSize: nat, budget: nat)
    requires Decodes(ci, items, items) && Decodes(cf, feedback, restored) && batchSize > 0
    requires budget < |Batches(items, batchSize, [])| + |Batches(restored, batchSize, [])|
    ensures var r := RestoreFrom(cu, ci, cf, ITEM_STREAM,
        RecordTokens(ci, items)
        + ([FlagToken(FEEDBACK_STREAM)] + (RecordTokens(cf, feedback) + ([FlagToken(EOF)] + junk))),
        batchSize, budget);
      !r.ok && r.inserted == (ItemBatches(Batches(items, batchSize, []))
                              + FeedbackBatches(Batches(restored, batchSize, [])))[..budget]
  {
    var bi, bf := Batches(items, batchSize, []), Batches(restored, batchSize, []);
    var rest := RecordTokens(cf, feedback) + ([FlagToken(EOF)] + junk);
    FirstOfBoth(ItemBatches(bi), FeedbackBatches(bf), budget);
    if budget < |bi| {
      ItemsRunOut(cu, ci, cf, items, rest, batchSize, budget);
    } else {
      FeedbackRunsOut(cu, ci, cf, feedback, restored, junk, batchSize, budget - |bi|);
      ItemsComplete(cu, ci, cf, items, rest, batchSize, budget,
                    RestoreFrom(cu, ci, cf, FEEDBACK_STREAM, rest, batchSize, budget - |bi|));
    }
  }

  lemma ItemsRunOut(cu: Codec<User>, ci: Codec<Item>, cf: Codec<Feedback>, items: seq<Item>, tail: seq<Token>,
                    batchSize: nat, budget: nat)
    requires Decodes(ci, items, items) && batchSize > 0 && budget < |Batches(items, batchSize, [])|
    ensures var r := RestoreFrom(cu, ci, cf, ITEM_STREAM,
                                 RecordTokens(ci, items) + ([FlagToken(FEEDBACK_STREAM)] + tail), batchSize, budget);
      !r.ok && r.inserted == ItemBatches(Batches(items, batchSize, []))[..budget]
  {
    SectionRunsOut(ci, items, items, FEEDBACK_STREAM, tail, batchSize, [], budget);
    assert ItemBatches(Batches(items, batchSize, [])[..budget]) == ItemBatches(Batches(items, batchSize, []))[..budget];
  }

  lemma FirstOfBoth(a: seq<Batch>, b: seq<Batch>, n: nat)
    requires n <= |a| + |b|
    ensures (a + b)[..n] == if n < |a| then a[..n] else a + b[..n - |a|]
  {
  }

  /** If the data store accepts fewer insertions than the dump has batches, the restore
      ends with an error after inserting exactly as many as it accepts: the first
      ones. */
  lemma RestoreStopsAtFailure(cu: Codec<User>, ci: Codec<Item>, cf: Codec<Feedback>,
                              users: seq<User>, items: seq<Item>, feedback: seq<Feedback>, restored: seq<Feedback>,
                              junk: seq<byte>, batchSize: nat, budget: nat)
    requires Decodes(cu, users, users) && Decodes(ci, items, items) && Decodes(cf, feedback, restored)
    requires batchSize > 0 && budget < |AllBatches(users, items, restored, batchSize)|
    ensures AllWritable(DumpTokens(cu, ci, cf, users, items, feedback))
    ensures var r := RestoreResult(cu, ci, cf, Tokens(Write(DumpTokens(cu, ci, cf, users, items, feedback)) + junk),
                                   batchSize, budget);
      !r.ok && r.inserted == AllBatches(users, items, restored, batchSize)[..budget]
  {
    DumpIsWritable(cu, ci, cf, users, items, feedback, restored);
    TokensOfWritten(DumpTokens(cu, ci, cf, users, items, feedback), junk);
    TokensSplit(cu, ci, cf, users, items, feedback, Tokens(junk));
    SectionsRunOut(cu, ci, cf, users, items, feedback, restored, Tokens(junk), batchSize, budget);
  }

  lemma UsersRunOut(cu: Codec<User>, ci: Codec<Item>, cf: Codec<Feedback>, users: seq<User>, tail: seq<Token>,
                    batchSize: nat, budget: nat)
    requires Decodes(cu, users, users) && batchSize > 0 && budget < |Batches(users, batchSize, [])|
    ensures var r := RestoreFrom(cu, ci, cf, USER_STREAM, RecordTokens(cu, users) + ([FlagToken(ITEM_STREAM)] + tail),
                                 batchSize, budget);
      !r.ok && r.inserted == UserBatches(Batches(users, batchSize, []))[..budget]
  {
    SectionRunsOut(cu, users, users, ITEM_STREAM, tail, batchSize, [], budget);
    assert UserBatches(Batches(users, batchSize, [])[..budget]) == UserBatches(Batches(users, batchSize, []))[..budget];
  }

  lemma SectionsRunOut(cu: Codec<User>, ci: Codec<Item>, cf: Codec<Feedback>,
                       users: seq<User>, items: seq<Item>, feedback: seq<Feedback>, restored: seq<Feedback>,
                       junk: seq<Token>, batchSize: nat, budget: nat)
    requires Decodes(cu, users, users) && Decodes(ci, items, items) && Decodes(cf, feedback, restored)
    requires batchSize > 0 && budget < |AllBatches(users, items, restored, batchSize)|
    ensures var r := RestoreFrom(cu, ci, cf, USER_STREAM, Sections(cu, ci, cf, users, items, feedback, junk), batchSize,
                                 budget);
      !r.ok && r.inserted == AllBatches(users, items, restored, batchSize)[..budget]
  {
    var bu := Batches(users, batchSize, []);
    var others := ItemBatches(Batches(items, batchSize, [])) + FeedbackBatches(Batches(restored, batchSize, []));
    var rest := RecordTokens(ci, items)
      + ([FlagToken(FEEDBACK_STREAM)] + (RecordTokens(cf, feedback) + ([FlagToken(EOF)] + junk)));
    FirstOfBoth(UserBatches(bu), others, budget);
    if budget < |bu| {
      UsersRunOut(cu, ci, cf, users, rest, batchSize, budget);
    } else {
      RestRunsOut(cu, ci, cf, items, feedback, restored, junk, batchSize, budget - |bu|);
      UsersComplete(cu, ci, cf, users, rest, batchSize, budget,
                    RestoreFrom(cu, ci, cf, ITEM_STREAM, rest, batchSize, budget - |bu|));
    }
  }

  /** The decoder for feedback with the shift of timestamps by the caller's delta. */
  function Shifted(cf: Codec<Feedback>, delta: int): Codec<Feedback> {
    Codec(cf.encode, b => match cf.decode(b)
                          case None => None
                          case Some(f) => Some(f.(timestamp := f.timestamp + delta)))
  }

  /** With a delta, feedback is restored with every timestamp moved by it. */
  lemma ShiftedDecodes(cf: Codec<Feedback>, fs: seq<Feedback>, delta: int)
    requires Decodes(cf, fs, fs)
    ensures Decodes(Shifted(cf, delta), fs,
                    seq(|fs|, i requires 0 <= i < |fs| => fs[i].(timestamp := fs[i].timestamp + delta)))
  {
  }

  // ------------------------------------------------------------------
  // The implementation
  // ------------------------------------------------------------------

  /** The data store, which refuses insertions once its budget is used up. */
  class DataStore {
    var inserted: seq<Batch>
    var budget: nat

    constructor (budget: nat)
      ensures inserted == [] && this.budget == budget
    {
      inserted, this.budget := [], budget;
    }

    method Insert(b: Batch) returns (ok: bool)
      modifies this
      ensures ok == (old(budget) > 0)
      ensures inserted == (if ok then old(inserted) + [b] else old(inserted))
      ensures budget == (if ok then old(budget) - 1 else old(budget))
    {
      ok := budget > 0;
      if ok {
        inserted, budget := inserted + [b], budget - 1;
      }
    }
  }

  /** `r` is what remains of `whole` after `done` batches and `count` records. */
  ghost predicate Remains<T>(whole: Section<T>, done: seq<seq<T>>, count: nat, r: Section<T>) {
    whole == Section(done + r.batches, count + r.count, r.budget, r.end)
  }

  lemma RemainsAfterRecord<T>(c: Codec<T>, ts: seq<Token>, batchSize: nat, pending: seq<T>, budget: nat,
                              whole: Section<T>, done: seq<seq<T>>, count: nat, x: T)
    requires ts != [] && ts[0].RecordToken? && c.decode(ts[0].bytes) == Some(x)
    requires Remains(whole, done, count, ReadSection(c, ts, batchSize, pending, budget))
    requires |pending| + 1 != batchSize
    ensures Remains(whole, done, count + 1, ReadSection(c, ts[1..], batchSize, pending + [x], budget))
  {
  }

  lemma RemainsAfterBatch<T>(c: Codec<T>, ts: seq<Token>, batchSize: nat, pending: seq<T>, budget: nat,
                             whole: Section<T>, done: seq<seq<T>>, count: nat, x: T)
    requires ts != [] && ts[0].RecordToken? && c.decode(ts[0].bytes) == Some(x)
    requires Remains(whole, done, count, ReadSection(c, ts, batchSize, pending, budget))
    requires |pending| + 1 == batchSize && budget > 0
    ensures Remains(whole, done + [pending + [x]], count + 1, ReadSection(c, ts[1..], batchSize, [], budget - 1))
  {
    var r := ReadSection(c, ts[1..], batchSize, [], budget - 1);
    assert done + ([pending + [x]] + r.batches) == done + [pending + [x]] + r.batches;
  }

  function Wrapped<T, B>(bs: seq<seq<T>>, wrap: seq<T> -> B): seq<B> {
    seq(|bs|, i requires 0 <= i < |bs| => wrap(bs[i]))
  }

  lemma WrappedMore<T, B>(bs: seq<seq<T>>, b: seq<T>, wrap: seq<T> -> B)
    ensures Wrapped(bs + [b], wrap) == Wrapped(bs, wrap) + [wrap(b)]
  {
  }

  /** Inserts one more batch after those in `done`. */
  method InsertBatch<T>(batch: seq<T>, store: DataStore, wrap: seq<T> -> Batch, ghost before: seq<Batch>,
                        ghost done: seq<seq<T>>)
    returns (ok: bool)
    requires store.inserted == before + Wrapped(done, wrap)
    modifies store
    ensures ok == (old(store.budget) > 0) && store.budget == (if ok then old(store.budget) - 1 else 0)
    ensures store.inserted == before + Wrapped(if ok then done + [batch] else done, wrap)
  {
    ok := store.Insert(wrap(batch));
    if ok {
      WrappedMore(done, batch, wrap);
      assert before + Wrapped(done + [batch], wrap) == before + Wrapped(done, wrap) + [wrap(batch)];
    }
  }

  /** Where the reader stands after a section. */
  datatype Progress = Reached(flag: int, rest: seq<byte>) | Stopped

  function EndOf(p: Progress): End {
    match p
    case Reached(flag, rest) => Next(flag, Tokens(rest))
    case Stopped => Failed
  }

  /** readDump, up to decoding. */
  method ReadUnit(input: seq<byte>) returns (d: Read)
    ensures match d
            case ReadError => Tokens(input) == []
            case ReadToken(t, rest) =>
              |rest| < |input| && Tokens(input) != [] && Tokens(input)[0] == t && Tokens(input)[1..] == Tokens(rest)
  {
    d := ReadNext(input);
  }

  /** Adds a record to the pending ones, and inserts them when the batch is full. */
  method TakeRecord<T>(x: T, pending: seq<T>, batchSize: nat, store: DataStore, wrap: seq<T> -> Batch,
                       ghost before: seq<Batch>, ghost done: seq<seq<T>>)
    returns (pending': seq<T>, ok: bool, ghost done': seq<seq<T>>)
    requires store.inserted == before + Wrapped(done, wrap)
    modifies store
    ensures store.inserted == before + Wrapped(done', wrap)
    ensures pending' == PendingAfter(x, pending, batchSize)
    ensures ok == (|pending| + 1 != batchSize || old(store.budget) > 0)
    ensures done' == if ok then DoneAfter(x, pending, batchSize, done) else done
    ensures store.budget == if |pending| + 1 == batchSize && ok then old(store.budget) - 1 else old(store.budget)
  {
    ok, done' := true, done;
    if |pending| + 1 == batchSize {
      ok := InsertBatch(pending + [x], store, wrap, before, done);
      pending' := [];
      done' := if ok then done + [pending + [x]] else done;
    } else {
      pending' := pending + [x];
    }
  }

  function PendingAfter<T>(x: T, pending: seq<T>, batchSize: nat): seq<T> {
    if |pending| + 1 == batchSize then [] else pending + [x]
  }

  function DoneAfter<T>(x: T, pending: seq<T>, batchSize: nat, done: seq<seq<T>>): seq<seq<T>> {
    if |pending| + 1 == batchSize then done + [pending + [x]] else done
  }

  lemma RemainsAfter<T>(c: Codec<T>, ts: seq<Token>, batchSize: nat, pending: seq<T>, budget: nat,
                        whole: Section<T>, done: seq<seq<T>>, count: nat, x: T)
    requires ts != [] && ts[0].RecordToken? && c.decode(ts[0].bytes) == Some(x)
    requires Remains(whole, done, count, ReadSection(c, ts, batchSize, pending, budget))
    requires budget > 0 || |pending| + 1 != batchSize
    ensures var budget' := if |pending| + 1 == batchSize then budget - 1 else budget;
      Remains(whole, DoneAfter(x, pending, batchSize, done), count + 1,
              ReadSection(c, ts[1..], batchSize, PendingAfter(x, pending, batchSize), budget'))
  {
    if |pending| + 1 == batchSize {
      RemainsAfterBatch(c, ts, batchSize, pending, budget, whole, done, count, x);
    } else {
      RemainsAfterRecord(c, ts, batchSize, pending, budget, whole, done, count, x);
    }
  }

  /** One of the three inner loops of Restore, with its insertions. */
  method RestoreSection<T>(c: Codec<T>, input: seq<byte>, batchSize: nat, store: DataStore,
                           wrap: seq<T> -> Batch) returns (count: nat, end: Progress)
    modifies store
    ensures end.Reached? ==> |end.rest| < |input|
    ensures var r := ReadSection(c, Tokens(input), batchSize, [], old(store.budget));
      && EndOf(end) == r.end && count == r.count && store.budget == r.budget
      && store.inserted == old(store.inserted) + Wrapped(r.batches, wrap)
  {
    var pending: seq<T> := [];
    var rest := input;
    count := 0;
    ghost var whole := ReadSection(c, Tokens(input), batchSize, [], store.budget);
    ghost var done: seq<seq<T>> := [];
    assert [] + whole.batches == whole.batches;
    while true
      invariant |rest| <= |input|
      invariant Remains(whole, done, count, ReadSection(c, Tokens(rest), batchSize, pending, store.budget))
      invariant store.inserted == old(store.inserted) + Wrapped(done, wrap)
      decreases |rest|
    {
      var d := ReadUnit(rest);
      ghost var ts := Tokens(rest);
      assert done + [] == done;
      if d.ReadError? {
        return count, Stopped;
      }
      if d.token.FlagToken? {
        if |pending| > 0 {
          var ok := InsertBatch(pending, store, wrap, old(store.inserted), done);
          if !ok {
            return count, Stopped;
          }
        }
        return count, Reached(d.token.flag, d.rest);
      }
      var decoded := c.decode(d.token.bytes);
      if decoded.None? {
        return count, Stopped;
      }
      ghost var budget := store.budget;
      if budget > 0 || |pending| + 1 != batchSize {
        RemainsAfter(c, ts, batchSize, pending, budget, whole, done, count, decoded.value);
      }
      var ok;
      pending, ok, done := TakeRecord(decoded.value, pending, batchSize, store, wrap, old(store.inserted), done);
      count := count + 1;
      if !ok {
        return count, Stopped;
      }
      rest := d.rest;
    }
  }

  /** The switch of Restore, with the effects of the section it runs. */
  method RunTurn(cu: Codec<User>, ci: Codec<Item>, cf: Codec<Feedback>, flag: int, input: seq<byte>, batchSize: nat,
                 store: DataStore) returns (users: nat, items: nat, feedback: nat, end: Progress)
    modifies store
    ensures end.Reached? ==> |end.rest| < |input|
    ensures var t := RestoreTurn(cu, ci, cf, flag, Tokens(input), batchSize, old(store.budget));
      && t == Turn(Outcome(t.here.inserted, users, items, feedback, false), store.budget, EndOf(end))
      && store.inserted == old(store.inserted) + t.here.inserted
  {
    users, items, feedback := 0, 0, 0;
    if flag == USER_STREAM {
      users, end := RestoreSection(cu, input, batchSize, store, us => UserBatch(us));
    } else if flag == ITEM_STREAM {
      items, end := RestoreSection(ci, input, batchSize, store, xs => ItemBatch(xs));
    } else if flag == FEEDBACK_STREAM {
      feedback, end := RestoreSection(cf, input, batchSize, store, fs => FeedbackBatch(fs));
    } else {
      end := Stopped;
    }
  }

  lemma JoinAssociative(a: Outcome, b: Outcome, c: Outcome)
    ensures Join(a, Join(b, c)) == Join(Join(a, b), c)
  {
  }

  lemma NextTurn(cu: Codec<User>, ci: Codec<Item>, cf: Codec<Feedback>, flag: int, ts: seq<Token>, batchSize: nat,
                 budget: nat, t: Turn)
    requires flag != EOF && t == RestoreTurn(cu, ci, cf, flag, ts, batchSize, budget)
    ensures RestoreFrom(cu, ci, cf, flag, ts, batchSize, budget)
         == (if t.end.Failed? then t.here
             else Join(t.here, RestoreFrom(cu, ci, cf, t.end.flag, t.end.rest, batchSize, t.budget)))
  {
  }

  /** One turn of the outer loop, with the counters. */
  method Advance(cu: Codec<User>, ci: Codec<Item>, cf: Codec<Feedback>, flag: int, rest: seq<byte>, batchSize: nat,
                 store: DataStore, u0: nat, i0: nat, f0: nat)
    returns (users: nat, items: nat, feedback: nat, end: Progress)
    requires flag != EOF
    modifies store
    ensures end.Reached? ==> |end.rest| < |rest|
    ensures Join(Outcome(old(store.inserted), u0, i0, f0, false),
                 RestoreFrom(cu, ci, cf, flag, Tokens(rest), batchSize, old(store.budget)))
         == (if end.Stopped? then Outcome(store.inserted, users, items, feedback, false)
             else Join(Outcome(store.inserted, users, items, feedback, false),
                       RestoreFrom(cu, ci, cf, end.flag, Tokens(end.rest), batchSize, store.budget)))
  {
    ghost var soFar := Outcome(store.inserted, u0, i0, f0, false);
    ghost var t := RestoreTurn(cu, ci, cf, flag, Tokens(rest), batchSize, store.budget);
    NextTurn(cu, ci, cf, flag, Tokens(rest), batchSize, store.budget, t);
    if t.end.Next? {
      JoinAssociative(soFar, t.here, RestoreFrom(cu, ci, cf, t.end.flag, t.end.rest, batchSize, t.budget));
    }
    users, items, feedback, end := RunTurn(cu, ci, cf, flag, rest, batchSize, store);
    users, items, feedback := u0 + users, i0 + items, f0 + feedback;
  }

  lemma JoinNothing(r: Outcome)
    ensures Join(Outcome([], 0, 0, 0, false), r) == r
  {
  }

  /** The outer loop of Restore. */
  method RestoreLoop(cu: Codec<User>, ci: Codec<Item>, cf: Codec<Feedback>, flag0: int, input: seq<byte>,
                     batchSize: nat, store: DataStore) returns (users: nat, items: nat, feedback: nat, ok: bool)
    requires store.inserted == []
    modifies store
    ensures Outcome(store.inserted, users, items, feedback, ok)
         == RestoreFrom(cu, ci, cf, flag0, Tokens(input), batchSize, old(store.budget))
  {
    users, items, feedback := 0, 0, 0;
    var flag, rest := flag0, input;
    ghost var whole := RestoreFrom(cu, ci, cf, flag, Tokens(rest), batchSize, store.budget);
    JoinNothing(whole);
    while flag != EOF
      invariant whole == Join(Outcome(store.inserted, users, items, feedback, false),
                              RestoreFrom(cu, ci, cf, flag, Tokens(rest), batchSize, store.budget))
      decreases |rest|
    {
      var end: Progress;
      users, items, feedback, end := Advance(cu, ci, cf, flag, rest, batchSize, store, users, items, feedback);
      if end.Stopped? {
        return users, items, feedback, false;
      }
      flag, rest := end.flag, end.rest;
    }
    assert store.inserted + [] == store.inserted;
    ok := true;
  }

  /** Restore. */
  method Restore(cu: Codec<User>, ci: Codec<Item>, cf: Codec<Feedback>, input: seq<byte>, batchSize: nat,
                 store: DataStore) returns (users: nat, items: nat, feedback: nat, ok: bool)
    requires store.inserted == []
    modifies store
    ensures Outcome(store.inserted, users, items, feedback, ok)
         == RestoreResult(cu, ci, cf, Tokens(input), batchSize, old(store.budget))
  {
    if |input| < 8 {
      return 0, 0, 0, false;
    }
    var flag := Decode(input[..8]);
    if flag > 0 {
      return 0, 0, 0, false;
    }
    assert Tokens(input)[0] == FlagToken(flag) && Tokens(input)[1..] == Tokens(input[8..]);
    users, items, feedback, ok := RestoreLoop(cu, ci, cf, flag, input[8..], batchSize, store);
  }
}
