/**
  Worked cases of the pipeline on small concrete inputs: the mate-2 position
  fix, the comparison branches, grouping of non-adjacent equal names and the
  empty alignment stream.
 */
module Scenarios {
  import opened Fragment
  import opened Bam
  import opened Grouping
  import opened TranscriptSets
  import opened Confusion
  import opened Validation
  import opened KmerIndex

  /** A matcher that finds two hits on "AC" and one on "GT", and nothing elsewhere. */
  function ToyMatcher(s: Sequence): seq<Hit>
  {
    if s == "AC" then [Hit(5, 2), Hit(5, 10)] else if s == "GT" then [Hit(5, 3)] else []
  }

  /**
    With fragment length 200 and k = 31 the projection origin is 169, so the
    mate-2 hit at 3 lands at 166 and mate 1's hits are untouched.
   */
  lemma PositionCorrectionCase()
    ensures LeftPos(Options(200, 31)) == 169
    ensures FragmentHits(ToyMatcher, "AC", "GT", true, 169) == [Hit(5, 2), Hit(5, 10), Hit(5, 166)]
    ensures FragmentHits(ToyMatcher, "AC", "GT", false, 169) == [Hit(5, 2), Hit(5, 10)]
  {
    var v := FragmentHits(ToyMatcher, "AC", "GT", true, 169);
    assert ToyMatcher("AC") == [Hit(5, 2), Hit(5, 10)];
    assert ToyMatcher("GT") == [Hit(5, 3)];
    assert v[..2] == [Hit(5, 2), Hit(5, 10)];
    assert v[2] == Hit(5, 166);
  }

  /** A projected position past the origin is floored at zero. */
  lemma PositionFloorCase()
    ensures FragmentHits(ToyMatcher, "AC", "GT", true, 2) == [Hit(5, 2), Hit(5, 10), Hit(5, 0)]
  {
    var v := FragmentHits(ToyMatcher, "AC", "GT", true, 2);
    assert ToyMatcher("AC") == [Hit(5, 2), Hit(5, 10)];
    assert ToyMatcher("GT") == [Hit(5, 3)];
    assert v[..2] == [Hit(5, 2), Hit(5, 10)];
    assert v[2] == Hit(5, 0);
  }

  /** The alignment set {3, 7} names class 42; the verdict follows the collector's class. */
  lemma ComparisonCases()
    ensures Classify([3, 7], 42, map[[3, 7] := 42]) == ExactMatch
    ensures Classify([3, 7], 5, map[[3, 7] := 42]) == Mismatch
    ensures Classify([3, 7], -1, map[[3, 7] := 42]) == AlignBnotK
    ensures Classify([3, 8], 42, map[[3, 7] := 42]) == Unrecorded
    ensures Classify([], 9, map[[3, 7] := 42]) == AlignKnotB
    ensures Classify([], -1, map[[3, 7] := 42]) == AlignNone
  {
  }

  /** Any list of alignments to transcripts 7 and 3 only, however repeated or ordered, gives the lookup key [3, 7]. */
  lemma CanonicalKeyCase(p: seq<int>)
    requires forall x :: x in p <==> x == 3 || x == 7
    ensures Normalize(p) == [3, 7]
  {
    var lp := Normalize(p);
    assert SameElements(lp, [3, 7]);
    StrictlyIncreasingUnique(lp, [3, 7]);
  }

  /** An unmapped record contributes no transcript; mapped ones contribute theirs through the table. */
  lemma TranscriptsCase()
    ensures Transcripts([BamRecord("r", FlagUnmapped, 0, "AC"), BamRecord("r", 0, 1, "AC")], [10, 20]) == [20]
  {
  }

  /** Records named r, s, r form three groups: only neighbours are compared. */
  lemma NonAdjacentNamesCase()
    ensures |Runs([BamRecord("r", 0, 0, ""), BamRecord("s", 0, 0, ""), BamRecord("r", 0, 0, "")])| == 3
  {
    var a := BamRecord("r", 0, 0, "");
    var b := BamRecord("s", 0, 0, "");
    var rs := [a, b, a];
    assert rs[1..][1..] == [a];
    assert rs[1..] == [b, a];
    assert [a][1..] == [];
  }

  /** An empty alignment stream yields no summary at all. */
  lemma EmptyStreamCase(table: seq<int>, opts: Options, index: Index, collect: Collector)
    ensures BamReference([], table, opts, index, collect) == EmptyBamFile
  {
  }
}
