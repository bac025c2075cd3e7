/** The sizes of sets, one inside the other, and parts of a sequence. */
module Sets {
  /** `part` is what `whole` has at the places `at`, in order. */
  ghost predicate TakenAt<T>(whole: seq<T>, at: seq<nat>, part: seq<T>) {
    && |at| == |part|
    && (forall j, k :: 0 <= j < k < |at| ==> at[j] < at[k])
    && forall k :: 0 <= k < |at| ==> at[k] < |whole| && part[k] == whole[at[k]]
  }

  /** The same places, seen from one before the first. */
  function Later(at: seq<nat>): (r: seq<nat>)
    ensures |r| == |at| && forall k :: 0 <= k < |at| ==> r[k] == at[k] + 1
  {
    seq(|at|, k requires 0 <= k < |at| => at[k] + 1)
  }

  lemma LaterMembers(at: seq<nat>, j: nat)
    ensures j in Later(at) <==> j > 0 && j - 1 in at
  {
    if j > 0 && j - 1 in at {
      var k :| 0 <= k < |at| && at[k] == j - 1;
      assert Later(at)[k] == j;
    }
  }

  /** One more place in front, taken or not. */
  lemma TakenWithFirst<T>(whole: seq<T>, at: seq<nat>, part: seq<T>, take: bool)
    requires whole != [] && TakenAt(whole[1..], at, part)
    ensures take ==> TakenAt(whole, [0] + Later(at), [whole[0]] + part)
    ensures !take ==> TakenAt(whole, Later(at), part)
  {
  }

  lemma SubsetSize<T>(a: set<T>, b: set<T>)
    requires a <= b
    ensures |a| <= |b|
  {
    assert b == a + (b - a);
  }

  lemma SameSize<T>(a: set<T>, b: set<T>)
    requires a <= b && |a| == |b|
    ensures a == b
  {
    assert |b - a| == |b| - |a|;
  }
}
