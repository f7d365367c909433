/** `_merge_outcome`: the precedence merge every decision step funnels its verdict through. */
module OutcomeLattice {
  import opened Common

  const REVIEW_RANK := 3

  /** Position in the precedence table; an outcome the table does not name counts as pending. */
  function Rank(outcome: string): nat {
    if outcome == "pass" then 1
    else if outcome == "approve" then 2
    else if outcome == "review" then 3
    else if outcome == "reject" then 4
    else 0
  }

  /** A falsy outcome reads as "pending". */
  function OrPending(outcome: string): string {
    if outcome == "" then "pending" else outcome
  }

  function Merge(current: string, candidate: Option<string>): string {
    var here := OrPending(current);
    var there := if candidate.None? || candidate.value == "" then here else candidate.value;
    if Rank(there) > Rank(here) then there
    else if Rank(there) < Rank(here) then here
    else if here == "pass" && there == "approve" then there
    else here
  }

  lemma MergeTakesHigherRank(a: string, b: Option<string>)
    ensures Rank(a) <= Rank(Merge(a, b))
    ensures b.Some? ==> Rank(Merge(a, b)) == if Rank(a) < Rank(b.value) then Rank(b.value) else Rank(a)
    ensures b.None? ==> Merge(a, b) == OrPending(a)
  {
  }

  /** Grouping never matters, for every string, known to the table or not. */
  lemma MergeAssociates(a: string, b: string, c: string)
    ensures Merge(Merge(a, Some(b)), Some(c)) == Merge(a, Some(Merge(b, Some(c))))
  {
  }

  /** "Order-independent" is exact: the merge commutes unless two different outcomes share a rank,
      which only happens to outcomes the table does not name. */
  lemma MergeCommutesIff(a: string, b: string)
    ensures Merge(a, Some(b)) == Merge(b, Some(a)) <==> Rank(a) != Rank(b) || OrPending(a) == OrPending(b)
  {
  }

  /** An outcome at or above the review rank is a review or a reject and nothing else. */
  lemma EscalatedMeansReviewOrReject(outcome: string)
    ensures Rank(outcome) >= REVIEW_RANK <==> outcome == "review" || outcome == "reject"
  {
  }

  /** A verdict merged into an earlier outcome and then into a later, higher one is the verdict merged into the later
      one: why children of a parallel loop may all start from the outcome the loop was entered with. */
  lemma MergeAbsorbsStart(running: string, start: string, candidate: Option<string>)
    requires Rank(start) <= Rank(running)
    requires running != ""
    ensures Merge(running, Some(Merge(start, candidate))) == Merge(running, candidate)
  {
  }
}
