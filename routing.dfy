/** The three-way split both quality filters perform: each record, with its
    assessment attached, goes to the kept, review or discarded list according
    to its score and the caller's `min_score`, keeping input order. */
module Routing {
  import opened Json
  import opened Seqs
  import opened Tiers

  /** The test for the list `bin`, under a scorer and a `min_score`. */
  function InBin(score: Dict -> real, minScore: real, bin: Recommendation): Dict -> bool {
    reg => Bin(score(reg), minScore) == bin
  }

  /** The three lists a filter fills. */
  datatype Buckets = Buckets(kept: seq<Dict>, review: seq<Dict>, discarded: seq<Dict>)

  function Part(b: Buckets, bin: Recommendation): seq<Dict> {
    match bin
    case Keep => b.kept
    case Review => b.review
    case Discard => b.discarded
  }

  /** Appending to one list leaves the other two alone. */
  function Add(b: Buckets, bin: Recommendation, reg: Dict): (r: Buckets)
    ensures forall other :: Part(r, other) == Part(b, other) + (if other == bin then [reg] else [])
  {
    match bin
    case Keep => b.(kept := b.kept + [reg])
    case Review => b.(review := b.review + [reg])
    case Discard => b.(discarded := b.discarded + [reg])
  }

  /** Each record, annotated, appended to the list its score selects. */
  function Routed(regs: seq<Dict>, minScore: real, score: Dict -> real, annotate: Dict -> Dict): Buckets {
    if regs == [] then Buckets([], [], [])
    else
      var reg := regs[|regs| - 1];
      Add(Routed(regs[..|regs| - 1], minScore, score, annotate), Bin(score(reg), minScore), annotate(reg))
  }

  /** One loop step: the next record joins the list its score selects. */
  lemma RoutedStep(regs: seq<Dict>, i: int, minScore: real, score: Dict -> real, annotate: Dict -> Dict)
    requires 0 <= i < |regs|
    ensures Routed(regs[..i + 1], minScore, score, annotate)
            == Add(Routed(regs[..i], minScore, score, annotate), Bin(score(regs[i]), minScore), annotate(regs[i]))
  {
    assert regs[..i + 1][..i] == regs[..i];
  }

  /** Each list holds, in input order, the annotated records its test selects. */
  lemma {:induction false} RoutedPart(regs: seq<Dict>, minScore: real, score: Dict -> real, annotate: Dict -> Dict, bin: Recommendation)
    ensures Part(Routed(regs, minScore, score, annotate), bin) == Map(Filter(regs, InBin(score, minScore, bin)), annotate)
  {
    if regs != [] {
      var i := |regs| - 1;
      RoutedPart(regs[..i], minScore, score, annotate, bin);
      assert regs[..i + 1] == regs;
      if InBin(score, minScore, bin)(regs[i]) {
        MapFilterKeep(regs, i, InBin(score, minScore, bin), annotate);
      } else {
        MapFilterSkip(regs, i, InBin(score, minScore, bin), annotate);
      }
    }
  }

  /** Every record lands in exactly one list: the three lists together are a
      rearrangement of the annotated input. */
  lemma RoutedPartition(regs: seq<Dict>, minScore: real, score: Dict -> real, annotate: Dict -> Dict)
    ensures var b := Routed(regs, minScore, score, annotate);
            |b.kept| + |b.review| + |b.discarded| == |regs|
            && multiset(b.kept) + multiset(b.review) + multiset(b.discarded) == multiset(Map(regs, annotate))
  {
    var keep, review, discard := InBin(score, minScore, Keep), InBin(score, minScore, Review), InBin(score, minScore, Discard);
    RoutedPart(regs, minScore, score, annotate, Keep);
    RoutedPart(regs, minScore, score, annotate, Review);
    RoutedPart(regs, minScore, score, annotate, Discard);
    forall i | 0 <= i < |regs|
      ensures ExactlyOne(keep(regs[i]), review(regs[i]), discard(regs[i]))
    {
    }
    PartitionThree(regs, keep, review, discard, annotate);
  }
}
