/** Combining digests: the strings are sorted, written one after the other and
    hashed, so neither their order nor their boundaries enter the result. */
module Digest {

  /** Byte-wise string order. */
  predicate AtMost(a: string, b: string) {
    a == "" || (b != "" && (a[0] < b[0] || (a[0] == b[0] && AtMost(a[1..], b[1..]))))
  }

  lemma {:induction false} AtMostTotal(a: string, b: string)
    ensures AtMost(a, b) || AtMost(b, a)
    ensures AtMost(a, b) && AtMost(b, a) ==> a == b
  {
    if a != "" && b != "" {
      AtMostTotal(a[1..], b[1..]);
      assert a == [a[0]] + a[1..] && b == [b[0]] + b[1..];
    }
  }

  lemma {:induction false} AtMostTransitive(a: string, b: string, c: string)
    requires AtMost(a, b) && AtMost(b, c)
    ensures AtMost(a, c)
  {
    if a != "" && a[0] == b[0] == c[0] {
      AtMostTransitive(a[1..], b[1..], c[1..]);
    }
  }

  predicate Ascending(l: seq<string>) {
    forall i, j :: 0 <= i < j < |l| ==> AtMost(l[i], l[j])
  }

  function Insert(s: string, l: seq<string>): (r: seq<string>)
    ensures multiset(r) == multiset(l) + multiset{s}
  {
    if l == [] then [s]
    else if AtMost(s, l[0]) then [s] + l
    else
      assert l == [l[0]] + l[1..];
      [l[0]] + Insert(s, l[1..])
  }

  lemma PrependAscending(s: string, l: seq<string>)
    requires Ascending(l) && forall k :: 0 <= k < |l| ==> AtMost(s, l[k])
    ensures Ascending([s] + l)
  {
  }

  lemma HeadIsLeast(l: seq<string>, s: string)
    requires Ascending(l) && s in multiset(l)
    ensures l != [] && AtMost(l[0], s)
  {
    var i :| 0 <= i < |l| && l[i] == s;
    AtMostTotal(s, s);
  }

  lemma TailAscending(l: seq<string>)
    requires Ascending(l) && l != []
    ensures Ascending(l[1..]) && multiset(l[1..]) == multiset(l) - multiset{l[0]} && l == [l[0]] + l[1..]
  {
    assert l == [l[0]] + l[1..];
  }

  lemma {:induction false} InsertAscending(s: string, l: seq<string>)
    requires Ascending(l)
    ensures Ascending(Insert(s, l))
  {
    if l != [] {
      AtMostTotal(s, l[0]);
      if AtMost(s, l[0]) {
        forall k | 0 <= k < |l|
          ensures AtMost(s, l[k])
        {
          HeadIsLeast(l, l[k]);
          AtMostTransitive(s, l[0], l[k]);
        }
        PrependAscending(s, l);
      } else {
        TailAscending(l);
        InsertAscending(s, l[1..]);
        InsertAbove(l[0], s, l[1..], Insert(s, l[1..]));
        PrependAscending(l[0], Insert(s, l[1..]));
      }
    }
  }

  lemma InsertAbove(low: string, s: string, l: seq<string>, r: seq<string>)
    requires multiset(r) == multiset(l) + multiset{s} && AtMost(low, s) && Ascending([low] + l)
    ensures forall k :: 0 <= k < |r| ==> AtMost(low, r[k])
  {
    forall k | 0 <= k < |r|
      ensures AtMost(low, r[k])
    {
      assert r[k] in multiset(r);
      if r[k] != s {
        assert r[k] in multiset([low] + l);
        HeadIsLeast([low] + l, r[k]);
      }
    }
  }

  /** What a sort of the strings returns. */
  function Sorted(l: seq<string>): (r: seq<string>)
    ensures Ascending(r) && multiset(r) == multiset(l)
  {
    if l == [] then []
    else
      assert l == [l[0]] + l[1..];
      InsertAscending(l[0], Sorted(l[1..]));
      Insert(l[0], Sorted(l[1..]))
  }

  lemma {:induction false} AscendingUnique(a: seq<string>, b: seq<string>)
    requires Ascending(a) && Ascending(b) && multiset(a) == multiset(b)
    ensures a == b
  {
    if a == [] {
      assert |multiset(b)| == 0;
    } else {
      assert a[0] in multiset(b) && |b| > 0 && b[0] in multiset(a);
      HeadIsLeast(a, b[0]);
      HeadIsLeast(b, a[0]);
      AtMostTotal(a[0], b[0]);
      TailAscending(a);
      TailAscending(b);
      AscendingUnique(a[1..], b[1..]);
    }
  }

  function Concat(l: seq<string>): string {
    if l == [] then "" else l[0] + Concat(l[1..])
  }

  function Combine(md5: string -> string, digests: seq<string>): string {
    md5(Concat(Sorted(digests)))
  }

  lemma CombineIgnoresOrder(md5: string -> string, a: seq<string>, b: seq<string>)
    requires multiset(a) == multiset(b)
    ensures Combine(md5, a) == Combine(md5, b)
  {
    AscendingUnique(Sorted(a), Sorted(b));
  }

  /** The number of bytes hashed. */
  function TotalLength(l: seq<string>): nat {
    if l == [] then 0 else TotalLength(l[..|l| - 1]) + |l[|l| - 1]|
  }

  lemma {:induction false} TotalLengthConcat(a: seq<string>, b: seq<string>)
    ensures TotalLength(a + b) == TotalLength(a) + TotalLength(b)
  {
    if b == [] {
      assert a + b == a;
    } else {
      assert (a + b)[..|a + b| - 1] == a + b[..|b| - 1];
      TotalLengthConcat(a, b[..|b| - 1]);
    }
  }

  lemma {:induction false} ConcatLength(l: seq<string>)
    ensures |Concat(l)| == TotalLength(l)
  {
    if l != [] {
      ConcatLength(l[1..]);
      TotalLengthConcat([l[0]], l[1..]);
      assert [l[0]] + l[1..] == l;
      assert [l[0]][..0] == [];
    }
  }

  lemma {:induction false} TotalLengthOfMultiset(a: seq<string>, b: seq<string>)
    requires multiset(a) == multiset(b)
    ensures TotalLength(a) == TotalLength(b)
  {
    if a == [] {
      assert |multiset(b)| == 0;
    } else {
      var last := a[|a| - 1];
      assert a == a[..|a| - 1] + [last];
      assert last in multiset(b);
      var j :| 0 <= j < |b| && b[j] == last;
      TotalLengthWithout(b, j);
      TotalLengthOfMultiset(a[..|a| - 1], b[..j] + b[j + 1..]);
    }
  }

  lemma TotalLengthWithout(b: seq<string>, j: nat)
    requires j < |b|
    ensures multiset(b[..j] + b[j + 1..]) == multiset(b) - multiset{b[j]}
    ensures TotalLength(b) == TotalLength(b[..j] + b[j + 1..]) + |b[j]|
  {
    assert b == b[..j] + [b[j]] + b[j + 1..];
    TotalLengthConcat(b[..j], b[j + 1..]);
    TotalLengthConcat(b[..j] + [b[j]], b[j + 1..]);
    TotalLengthConcat(b[..j], [b[j]]);
    assert [b[j]][..0] == [];
  }

  /** Without collisions of the hash, equal results come from equally many bytes. */
  lemma CombineKeepsLength(md5: string -> string, a: seq<string>, b: seq<string>)
    requires forall x, y :: md5(x) == md5(y) ==> x == y
    requires Combine(md5, a) == Combine(md5, b)
    ensures TotalLength(a) == TotalLength(b)
  {
    ConcatLength(Sorted(a));
    ConcatLength(Sorted(b));
    TotalLengthOfMultiset(a, Sorted(a));
    TotalLengthOfMultiset(b, Sorted(b));
  }

  // ------------------------------------------------------------------
  // Digests that can be told apart in the concatenation
  // ------------------------------------------------------------------

  const HASH_SIZE := 32
  const WORD := "latest"

  /** A hash of 32 hexadecimal digits, or the word of the latest recommender. */
  predicate IsFramed(digest: string) {
    digest == WORD || (|digest| == HASH_SIZE && digest[0] != WORD[0])
  }

  /** Without the empty strings of missing digests. */
  function Present(l: seq<string>): seq<string> {
    if l == [] then [] else (if l[0] == "" then [] else [l[0]]) + Present(l[1..])
  }

  lemma {:induction false} PresentConcat(l: seq<string>)
    ensures Concat(Present(l)) == Concat(l)
  {
    if l != [] {
      PresentConcat(l[1..]);
      assert ([l[0]] + Present(l[1..]))[1..] == Present(l[1..]);
      assert [] + Present(l[1..]) == Present(l[1..]);
      assert l[0] == "" ==> "" + Concat(l[1..]) == Concat(l[1..]);
    }
  }

  lemma {:induction false} PresentMultiset(l: seq<string>)
    ensures multiset(Present(l)) == multiset(l)["" := 0]
  {
    if l != [] {
      assert l == [l[0]] + l[1..];
      PresentMultiset(l[1..]);
    }
  }

  lemma PresentIn(l: seq<string>, s: string)
    ensures s in Present(l) <==> s in l && s != ""
  {
    PresentMultiset(l);
    assert s in Present(l) <==> s in multiset(Present(l));
    assert s in l <==> s in multiset(l);
  }

  lemma {:induction false} PresentAscending(l: seq<string>)
    requires Ascending(l)
    ensures Ascending(Present(l))
  {
    if l != [] {
      TailAscending(l);
      PresentAscending(l[1..]);
      var rest := Present(l[1..]);
      forall k | 0 <= k < |rest|
        ensures AtMost(l[0], rest[k])
      {
        PresentIn(l[1..], rest[k]);
        HeadIsLeast(l, rest[k]);
      }
      PrependAscending(l[0], rest);
    }
  }

  lemma {:induction false} PresentFramed(l: seq<string>)
    requires forall s :: s in l ==> IsFramed(s)
    ensures Present(l) == l
  {
    if l != [] {
      assert l == [l[0]] + l[1..];
      assert l[0] in l && IsFramed(l[0]);
      PresentFramed(l[1..]);
    }
  }

  /** No framed string is the beginning of another, so the parts can be read off. */
  lemma {:induction false} ConcatInjective(a: seq<string>, b: seq<string>)
    requires forall k :: 0 <= k < |a| ==> IsFramed(a[k])
    requires forall k :: 0 <= k < |b| ==> IsFramed(b[k])
    requires Concat(a) == Concat(b)
    ensures a == b
  {
    StartsWithPart(a);
    StartsWithPart(b);
    if a != [] && b != [] {
      SameHead(a[0], Concat(a[1..]), b[0], Concat(b[1..]));
      ConcatInjective(a[1..], b[1..]);
      assert a == [a[0]] + a[1..] && b == [b[0]] + b[1..];
    }
  }

  lemma StartsWithPart(l: seq<string>)
    requires forall k :: 0 <= k < |l| ==> IsFramed(l[k])
    ensures l == [] <==> Concat(l) == ""
  {
    if l != [] {
      assert |Concat(l)| >= |l[0]| > 0;
    }
  }

  lemma SameHead(x: string, restX: string, y: string, restY: string)
    requires IsFramed(x) && IsFramed(y) && x + restX == y + restY
    ensures x == y && restX == restY
  {
    assert (x + restX)[0] == x[0] && (y + restY)[0] == y[0];
    assert |x| == |y|;
    assert x == (x + restX)[..|x|] && y == (y + restY)[..|y|];
    assert restX == (x + restX)[|x|..] && restY == (y + restY)[|y|..];
  }

  /** Without hash collisions the combined digests are equal exactly if the same
      digests are present, equally often. */
  lemma CombineDecides(md5: string -> string, a: seq<string>, b: seq<string>)
    requires forall x, y :: md5(x) == md5(y) ==> x == y
    requires forall s :: s in a || s in b ==> s == "" || IsFramed(s)
    ensures Combine(md5, a) == Combine(md5, b) <==> multiset(Present(a)) == multiset(Present(b))
  {
    PresentSorted(a);
    PresentSorted(b);
    var x, y := Present(Sorted(a)), Present(Sorted(b));
    if Concat(x) == Concat(y) {
      ConcatInjective(x, y);
    }
    if multiset(x) == multiset(y) {
      AscendingUnique(x, y);
    }
  }

  lemma PresentSorted(l: seq<string>)
    requires forall s :: s in l ==> s == "" || IsFramed(s)
    ensures var present := Present(Sorted(l));
      && Ascending(present) && multiset(present) == multiset(Present(l)) && Concat(present) == Concat(Sorted(l))
      && forall k :: 0 <= k < |present| ==> IsFramed(present[k])
  {
    PresentConcat(Sorted(l));
    PresentMultiset(Sorted(l));
    PresentMultiset(l);
    PresentAscending(Sorted(l));
    PresentOfFramed(l);
  }

  lemma PresentOfFramed(l: seq<string>)
    requires forall s :: s in l ==> s == "" || IsFramed(s)
    ensures var present := Present(Sorted(l)); forall k :: 0 <= k < |present| ==> IsFramed(present[k])
  {
    var present := Present(Sorted(l));
    forall k | 0 <= k < |present|
      ensures IsFramed(present[k])
    {
      PresentIn(Sorted(l), present[k]);
      assert present[k] in multiset(Sorted(l)) && present[k] in multiset(l);
    }
  }
}
