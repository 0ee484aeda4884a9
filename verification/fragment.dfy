/**
  Hit assembly for one fragment: the index's matcher is run on mate 1, then on
  mate 2, and only the hits appended for mate 2 are projected into mate 1's
  coordinate frame under an assumed fragment length.  The matcher and the
  equivalence-class collector are external collaborators and appear here as
  function values.
 */
module Fragment {

  /** A read or mate sequence as handed to the matcher. */
  type Sequence = seq<char>

  /** One k-mer hit: a transcript id and a position. */
  datatype Hit = Hit(tid: int, pos: int)

  /** An equivalence-class id as returned by the collector; -1 means "no consistent class". */
  type EcId = x: int | -1 <= x

  /** The hits the matcher appends to the caller's buffer for one sequence. */
  type Matcher = Sequence -> seq<Hit>

  /** The collector's class lookup for one hit set. */
  type Collector = seq<Hit> -> EcId

  /** The run configuration the pipeline reads: fragment-length estimate and k-mer length. */
  datatype Options = Options(fld: int, k: int)

  /** Position of mate 1's leftmost k-mer under the assumed fragment length. */
  function LeftPos(opts: Options): int
  {
    opts.fld - opts.k
  }

  /** A mate-2 position projected into mate 1's frame, floored at zero (std::max(x, 0)). */
  function MirrorPos(leftpos: int, p: int): (r: int)
    ensures r >= 0 && r >= leftpos - p
    ensures r == 0 || r == leftpos - p
  {
    if leftpos - p < 0 then 0 else leftpos - p
  }

  /** The projection never increases when the raw position grows. */
  lemma MirrorPosAntitone(leftpos: int, p: int, q: int)
    requires p <= q
    ensures MirrorPos(leftpos, q) <= MirrorPos(leftpos, p)
  {
  }

  /** Projects every hit of `v`, keeping transcript ids and order. */
  function MirrorAll(v: seq<Hit>, leftpos: int): (w: seq<Hit>)
    ensures |w| == |v|
    ensures forall i :: 0 <= i < |v| ==> w[i] == Hit(v[i].tid, MirrorPos(leftpos, v[i].pos))
  {
    if v == [] then [] else [Hit(v[0].tid, MirrorPos(leftpos, v[0].pos))] + MirrorAll(v[1..], leftpos)
  }

  /** The mate-2 correction: hits before `vl` (mate 1's) are kept, the rest are projected. */
  function CorrectMate2(v: seq<Hit>, vl: nat, leftpos: int): (w: seq<Hit>)
    requires vl <= |v|
    ensures |w| == |v|
    ensures forall i :: 0 <= i < vl ==> w[i] == v[i]
    ensures forall i :: 0 <= i < |v| ==> w[i].tid == v[i].tid
    ensures forall i :: vl <= i < |v| ==> w[i].pos == MirrorPos(leftpos, v[i].pos) && w[i].pos >= 0
  {
    v[..vl] + MirrorAll(v[vl..], leftpos)
  }

  /**
    The hit set of one fragment: mate 1's hits, followed (when paired) by mate 2's
    hits projected into mate 1's frame.
   */
  function FragmentHits(matcher: Matcher, s1: Sequence, s2: Sequence, paired: bool, leftpos: int): (v: seq<Hit>)
    ensures !paired ==> v == matcher(s1)
    ensures paired ==> |v| == |matcher(s1)| + |matcher(s2)|
    ensures paired ==> v[..|matcher(s1)|] == matcher(s1)
    ensures paired ==> forall i :: 0 <= i < |matcher(s2)| ==>
      v[|matcher(s1)| + i] == Hit(matcher(s2)[i].tid, MirrorPos(leftpos, matcher(s2)[i].pos))
  {
    var v1 := matcher(s1);
    if paired then CorrectMate2(v1 + matcher(s2), |v1|, leftpos) else v1
  }

  /** The correction loop, rewriting positions in place from index `vl` on. */
  method CorrectMate2InPlace(v: seq<Hit>, vl: nat, leftpos: int) returns (w: seq<Hit>)
    requires vl <= |v|
    ensures w == CorrectMate2(v, vl, leftpos)
  {
    ghost var target := CorrectMate2(v, vl, leftpos);
    w := v;
    var i := vl;
    while i < |w|
      invariant vl <= i <= |w| == |v|
      invariant forall j :: 0 <= j < i ==> w[j] == target[j]
      invariant forall j :: i <= j < |w| ==> w[j] == v[j]
    {
      w := w[i := Hit(w[i].tid, MirrorPos(leftpos, w[i].pos))];
      i := i + 1;
    }
    assert forall j :: 0 <= j < |w| ==> w[j] == target[j];
  }

  /**
    Appends one fragment's hits to the buffer `buffer`, as the pipeline does after
    clearing it: whatever the buffer held stays untouched in front, so the
    fragment's own hits depend only on its mates.
   */
  method MatchFragment(buffer: seq<Hit>, matcher: Matcher, s1: Sequence, s2: Sequence, paired: bool, leftpos: int)
    returns (v: seq<Hit>)
    ensures v == buffer + FragmentHits(matcher, s1, s2, paired, leftpos)
  {
    v := buffer + matcher(s1);
    if paired {
      var vl := |v|;
      v := v + matcher(s2);
      v := CorrectMate2InPlace(v, vl, leftpos);
      ghost var f := FragmentHits(matcher, s1, s2, paired, leftpos);
      assert |v| == |buffer + f|;
      forall j | 0 <= j < |v|
        ensures v[j] == (buffer + f)[j]
      {
        if j < |buffer| + |matcher(s1)| {
        } else {
          assert f[j - |buffer|] == Hit(matcher(s2)[j - vl].tid, MirrorPos(leftpos, matcher(s2)[j - vl].pos));
        }
      }
    }
  }
}
