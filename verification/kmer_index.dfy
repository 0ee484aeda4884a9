/**
  The pseudoalignment index as the pipeline sees it: the k-mer matcher, the
  reverse map from sorted transcript-id lists to equivalence-class ids, and
  the transcript names.
 */
module KmerIndex {
  import opened Fragment

  /** A transcript's id is its position in `targetNames`. */
  datatype Index = Index(matcher: Matcher, ecmapinv: map<seq<int>, nat>, targetNames: seq<string>)
}
