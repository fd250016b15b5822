/** Small helpers shared by the modules. */
module Collections {
  datatype Option<+T> = None | Some(value: T)

  /** Iteration over an unordered collection starts from an arbitrary member. */
  method PickOne<T(==)>(s: set<T>) returns (x: T)
    requires s != {}
    ensures x in s
  {
    x :| x in s;
  }

  /** `at` lists, in increasing order, the positions at which `part` stands in `whole`:
      `part` is what is left of `whole` after taking out the others. */
  ghost predicate Picks<T>(part: seq<T>, whole: seq<T>, at: seq<nat>) {
    && |at| == |part|
    && (forall j :: 0 <= j < |at| ==> at[j] < |whole| && part[j] == whole[at[j]])
    && (forall j, k :: 0 <= j < k < |at| ==> at[j] < at[k])
  }
}
