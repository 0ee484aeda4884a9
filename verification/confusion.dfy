/**
  The confusion tally of the alignment-validation path: each logical read's
  alignment transcript set is looked up in the index's reverse class map and
  compared with the class the collector assigned to the read's hits.
 */
module Confusion {
  import opened Fragment

  /**
    The outcome of comparing one read: one of the five counters, or
    Unrecorded when the alignment set is not a class of the index.
   */
  datatype Verdict =
    | ExactMatch   // both agree on the class
    | AlignKnotB   // the matcher found a class, the alignments mapped nowhere
    | AlignBnotK   // the alignments name a class, the matcher found none
    | Mismatch     // both found a class, and they differ
    | AlignNone    // neither mapped
    | Unrecorded   // the alignment set is no class of the index

  /** The case split of the comparison, in the order the checks are made. */
  function Classify(lp: seq<int>, ec: EcId, ecmapinv: map<seq<int>, nat>): (v: Verdict)
    ensures v == Unrecorded <==> lp != [] && lp !in ecmapinv
    ensures v == ExactMatch <==> lp != [] && lp in ecmapinv && ecmapinv[lp] == ec
    ensures v == AlignBnotK <==> lp != [] && lp in ecmapinv && ec == -1
    ensures v == Mismatch <==> lp != [] && lp in ecmapinv && ec >= 0 && ecmapinv[lp] != ec
    ensures v == AlignKnotB <==> lp == [] && ec >= 0
    ensures v == AlignNone <==> lp == [] && ec == -1
  {
    if lp != [] then
      if lp in ecmapinv then
        if ecmapinv[lp] != ec then
          if ec == -1 then AlignBnotK else Mismatch
        else ExactMatch
      else Unrecorded
    else if ec >= 0 then AlignKnotB
    else AlignNone
  }

  /** The five counters. */
  datatype Tally = Tally(exactMatches: nat, alignKnotB: nat, alignBnotK: nat, mismatches: nat, alignNone: nat)

  const EmptyTally := Tally(0, 0, 0, 0, 0)

  /** The counter a verdict feeds; Unrecorded feeds none. */
  function Counter(t: Tally, v: Verdict): nat
  {
    match v
    case ExactMatch => t.exactMatches
    case AlignKnotB => t.alignKnotB
    case AlignBnotK => t.alignBnotK
    case Mismatch => t.mismatches
    case AlignNone => t.alignNone
    case Unrecorded => 0
  }

  function Total(t: Tally): nat
  {
    t.exactMatches + t.alignKnotB + t.alignBnotK + t.mismatches + t.alignNone
  }

  /** Counts one verdict: exactly its own counter moves, by one; Unrecorded moves nothing. */
  function Record(t: Tally, v: Verdict): (t': Tally)
    ensures forall c :: Counter(t', c) == Counter(t, c) + (if c == v && v != Unrecorded then 1 else 0)
    ensures Total(t') == Total(t) + (if v == Unrecorded then 0 else 1)
  {
    match v
    case ExactMatch => t.(exactMatches := t.exactMatches + 1)
    case AlignKnotB => t.(alignKnotB := t.alignKnotB + 1)
    case AlignBnotK => t.(alignBnotK := t.alignBnotK + 1)
    case Mismatch => t.(mismatches := t.mismatches + 1)
    case AlignNone => t.(alignNone := t.alignNone + 1)
    case Unrecorded => t
  }

  /** The tally after counting `vs` in order from zero. */
  function TallyOf(vs: seq<Verdict>): Tally
  {
    if vs == [] then EmptyTally else Record(TallyOf(vs[..|vs| - 1]), vs[|vs| - 1])
  }

  /** Counting one more verdict at the end. */
  lemma TallyOfSnoc(vs: seq<Verdict>, v: Verdict)
    ensures TallyOf(vs + [v]) == Record(TallyOf(vs), v)
  {
    assert (vs + [v])[..|vs|] == vs;
  }

  /** How many of `vs` equal `c`. */
  function Occurrences(vs: seq<Verdict>, c: Verdict): nat
  {
    if vs == [] then 0 else Occurrences(vs[..|vs| - 1], c) + (if vs[|vs| - 1] == c then 1 else 0)
  }

  /**
    Each counter holds the number of reads with its verdict, so the counters
    partition the reads that reach a comparison, and together they never
    exceed the number of reads.
   */
  lemma {:induction false} TallyCounts(vs: seq<Verdict>)
    ensures forall c :: c != Unrecorded ==> Counter(TallyOf(vs), c) == Occurrences(vs, c)
    ensures Total(TallyOf(vs)) + Occurrences(vs, Unrecorded) == |vs|
    ensures Total(TallyOf(vs)) <= |vs|
  {
    if vs != [] {
      TallyCounts(vs[..|vs| - 1]);
    }
  }
}
