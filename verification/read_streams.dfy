/**
  The sequence-file read loop: one stream (single-end) or two synchronized
  streams (paired-end) are pulled record by record, and each read's hit set is
  handed to the collector.  A stream is the list of its records' sequences;
  pulling record `i` yields its length, or -1 once the stream is exhausted.
 */
module ReadStreams {
  import opened Fragment
  import opened KmerIndex

  /** What a pull of record `i` returns: the record's length, or -1 past the end. */
  function Pull(stream: seq<Sequence>, i: nat): int
  {
    if i < |stream| then |stream[i]| else -1
  }

  /** Two input files mean paired-end; any other count reads the first file alone. */
  predicate IsPaired(files: seq<seq<Sequence>>)
  {
    |files| == 2
  }

  /** The loop's exit test after pulling record `i` from each open stream. */
  predicate Stops(files: seq<seq<Sequence>>, i: nat)
    requires |files| >= 1
  {
    Pull(files[0], i) <= 0 || (IsPaired(files) && Pull(files[1], i) <= 0)
  }

  /** The number of reads processed from record `i` on: the first index at which the loop exits. */
  function ReadCountFrom(files: seq<seq<Sequence>>, i: nat): (n: nat)
    requires |files| >= 1
    requires i <= |files[0]| && (IsPaired(files) ==> i <= |files[1]|)
    ensures i <= n <= |files[0]|
    ensures IsPaired(files) ==> n <= |files[1]|
    ensures Stops(files, n)
    ensures forall j :: i <= j < n ==> !Stops(files, j)
    decreases |files[0]| - i
  {
    if Stops(files, i) then i else ReadCountFrom(files, i + 1)
  }

  /** The number of reads the loop processes. */
  function ReadCount(files: seq<seq<Sequence>>): nat
    requires |files| >= 1
  {
    ReadCountFrom(files, 0)
  }

  /**
    With no empty records, the loop processes every record of a single stream,
    and exactly the shorter stream's length of pairs, without complaint about
    the longer one.
   */
  lemma ReadCountIsMin(files: seq<seq<Sequence>>)
    requires |files| >= 1
    requires forall f, i :: 0 <= f < |files| && 0 <= i < |files[f]| ==> |files[f][i]| > 0
    ensures !IsPaired(files) ==> ReadCount(files) == |files[0]|
    ensures IsPaired(files) ==> ReadCount(files) == if |files[0]| <= |files[1]| then |files[0]| else |files[1]|
  {
  }

  /** Mate 2 of read `i`; single-end reads have none. */
  function Mate2(files: seq<seq<Sequence>>, i: nat): Sequence
    requires |files| >= 1 && (IsPaired(files) ==> i < |files[1]|)
  {
    if IsPaired(files) then files[1][i] else []
  }

  /** The hit set of read `i`, computed from that read's mates alone. */
  function ReadHits(files: seq<seq<Sequence>>, i: nat, opts: Options, index: Index): seq<Hit>
    requires |files| >= 1 && i < |files[0]| && (IsPaired(files) ==> i < |files[1]|)
  {
    FragmentHits(index.matcher, files[0][i], Mate2(files, i), IsPaired(files), LeftPos(opts))
  }

  /** What the read loop leaves behind: the read count and the hit sets handed to the collector, in order. */
  datatype ReadsReport = ReadsReport(nreads: nat, collected: seq<seq<Hit>>)

  /** Reference result of the read loop. */
  function ReadsReference(files: seq<seq<Sequence>>, opts: Options, index: Index): ReadsReport
    requires |files| >= 1
  {
    var n := ReadCount(files);
    ReadsReport(n, seq(n, i requires 0 <= i < n => ReadHits(files, i, opts, index)))
  }

  /**
    The read loop: pull one record from each open stream, stop as soon as one
    pull fails, otherwise clear the hit buffer, match the read and hand the
    hits to the collector.
   */
  method ProcessReads(files: seq<seq<Sequence>>, opts: Options, index: Index) returns (report: ReadsReport)
    requires |files| >= 1
    ensures report == ReadsReference(files, opts, index)
    ensures report.nreads == |report.collected| <= |files[0]|
    ensures IsPaired(files) ==> report.nreads <= |files[1]|
  {
    var paired := |files| == 2;
    var v: seq<Hit> := [];
    var nreads := 0;
    var collected: seq<seq<Hit>> := [];
    while true
      invariant nreads <= ReadCount(files)
      invariant |collected| == nreads
      invariant forall j :: 0 <= j < nreads ==> collected[j] == ReadHits(files, j, opts, index)
      decreases ReadCount(files) - nreads
    {
      var l1 := Pull(files[0], nreads);
      var l2 := if paired then Pull(files[1], nreads) else 0;
      if l1 <= 0 {
        break;
      }
      if paired && l2 <= 0 {
        break;
      }
      assert !Stops(files, nreads);
      var mate2 := if paired then files[1][nreads] else [];
      v := [];
      v := MatchFragment(v, index.matcher, files[0][nreads], mate2, paired, LeftPos(opts));
      collected := collected + [v];
      nreads := nreads + 1;
    }
    assert Stops(files, nreads);
    ghost var reference := ReadsReference(files, opts, index);
    assert reference.nreads == nreads;
    assert forall j :: 0 <= j < nreads ==> collected[j] == reference.collected[j];
    report := ReadsReport(nreads, collected);
  }
}
