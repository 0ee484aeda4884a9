/**
  The alignment-input pipeline: a stream of alignment records, grouped by
  query name, is turned into logical reads; each read is matched like a
  sequence-file read, and its matcher-derived class is compared with the
  class named by its alignments.
 */
module Validation {
  import opened Fragment
  import opened Bam
  import opened Grouping
  import opened TranscriptSets
  import opened Confusion
  import opened ContigTable
  import opened KmerIndex
  import opened SeqLemmas

  /** The hit set of one group, from the mates its records supply. */
  function GroupHits(g: seq<BamRecord>, opts: Options, index: Index): seq<Hit>
    requires |g| > 0
  {
    var m := GroupMates(g);
    FragmentHits(index.matcher, m.s1, m.s2, HasFlag(g[0], FlagMultiple), LeftPos(opts))
  }

  /** The confusion verdict of one group. */
  function GroupVerdict(g: seq<BamRecord>, table: seq<int>, opts: Options, index: Index, collect: Collector): Verdict
    requires |g| > 0 && Resolvable(g, table)
  {
    Classify(Normalize(Transcripts(g, table)), collect(GroupHits(g, opts, index)), index.ecmapinv)
  }

  /** Every group is a non-empty run of resolvable records. */
  ghost predicate WellFormedGroups(gs: seq<seq<BamRecord>>, table: seq<int>)
  {
    forall k :: 0 <= k < |gs| ==> |gs[k]| > 0 && Resolvable(gs[k], table)
  }

  function Verdicts(gs: seq<seq<BamRecord>>, table: seq<int>, opts: Options, index: Index, collect: Collector): (vs: seq<Verdict>)
    requires WellFormedGroups(gs, table)
    ensures |vs| == |gs|
  {
    seq(|gs|, k requires 0 <= k < |gs| => GroupVerdict(gs[k], table, opts, index, collect))
  }

  function HitSets(gs: seq<seq<BamRecord>>, opts: Options, index: Index): (hs: seq<seq<Hit>>)
    requires forall k :: 0 <= k < |gs| ==> |gs[k]| > 0
    ensures |hs| == |gs|
  {
    seq(|gs|, k requires 0 <= k < |gs| => GroupHits(gs[k], opts, index))
  }

  /**
    What the alignment pipeline leaves behind: nothing for an empty stream (it
    returns before the summary and before writing counts), otherwise the read
    count, the five counters and the hit sets handed to the collector, in order.
   */
  datatype BamReport = EmptyBamFile | BamSummary(nreads: nat, tally: Tally, collected: seq<seq<Hit>>)

  /** Reference result of the alignment pipeline: one logical read per maximal run of equal names. */
  function BamReference(records: seq<BamRecord>, table: seq<int>, opts: Options, index: Index, collect: Collector): BamReport
    requires Resolvable(records, table)
  {
    if records == [] then EmptyBamFile
    else
      var gs := Runs(records);
      RunsResolvable(records, table);
      BamSummary(|gs|, TallyOf(Verdicts(gs, table, opts, index, collect)), HitSets(gs, opts, index))
  }

  /** The counters never add up to more than the reads, and each counts exactly the reads with its verdict. */
  lemma BamTallyBound(records: seq<BamRecord>, table: seq<int>, opts: Options, index: Index, collect: Collector)
    requires Resolvable(records, table)
    ensures records == [] <==> BamReference(records, table, opts, index, collect) == EmptyBamFile
    ensures var r := BamReference(records, table, opts, index, collect);
      r.BamSummary? ==> r.nreads == |Runs(records)| && Total(r.tally) <= r.nreads
  {
    if records != [] {
      var gs := Runs(records);
      RunsResolvable(records, table);
      TallyCounts(Verdicts(gs, table, opts, index, collect));
    }
  }

  /** The groups from record `i` on are the run starting at `i` followed by the groups after it. */
  lemma RunsStep(records: seq<BamRecord>, i: nat, next: nat)
    requires i < |records| && next == i + LeadRun(records[i..])
    ensures next <= |records| && Runs(records[i..]) == [records[i..next]] + Runs(records[next..])
  {
    assert records[i..][..next - i] == records[i..next];
    assert records[i..][next - i..] == records[next..];
  }

  /** The lookahead test: record `i + 1` stays in the run starting at `start` exactly when its name equals record `i`'s. */
  lemma LookaheadStep(records: seq<BamRecord>, start: nat, i: nat)
    requires i + 1 < |records| && start <= i && i < start + LeadRun(records[start..])
    ensures i + 1 < start + LeadRun(records[start..]) <==> records[i].qName == records[i + 1].qName
  {
    var rs := records[start..];
    assert rs[i - start] == records[i];
    assert rs[i + 1 - start] == records[i + 1];
  }

  /** Any stretch of a resolvable stream is resolvable. */
  lemma ResolvableSlice(records: seq<BamRecord>, lo: nat, hi: nat, table: seq<int>)
    requires lo <= hi <= |records| && Resolvable(records, table)
    ensures Resolvable(records[lo..hi], table)
  {
    assert forall j :: 0 <= j < hi - lo ==> records[lo..hi][j] == records[lo + j];
  }

  /**
    What the unread records `i..end` of a group still owe: fed on top of the
    mates `m` and transcript list `p` read so far, they yield the group's
    `mates` and `trans`.
   */
  ghost predicate GroupRest(records: seq<BamRecord>, i: nat, end: nat, m: Mates, p: seq<int>, paired: bool,
                            table: seq<int>, mates: Mates, trans: seq<int>)
  {
    i <= end <= |records|
    && CollectMates(m, records[i..end], paired) == mates
    && Resolvable(records[i..end], table) && p + Transcripts(records[i..end], table) == trans
  }

  /**
    Peeling one record off the front of the unread part of a group keeps the
    group's eventual mates and transcript list unchanged.
   */
  lemma GroupStep(records: seq<BamRecord>, i: nat, end: nat, m: Mates, p: seq<int>, paired: bool,
                  table: seq<int>, mates: Mates, trans: seq<int>)
    requires i < end && Resolvable(records, table)
    requires GroupRest(records, i, end, m, p, paired, table, mates, trans)
    ensures Resolves(records[i], table)
    ensures GroupRest(records, i + 1, end, MateStep(m, records[i], paired), p + Transcripts([records[i]], table),
                      paired, table, mates, trans)
  {
    ResolvableSlice(records, i + 1, end, table);
    assert records[i..end][1..] == records[i + 1..end];
    assert records[i..end][0] == records[i];
    assert [records[i]][1..] == [];
  }

  /**
    One record's contribution to its group: it may fill an empty mate, and a
    mapped record adds its transcript to the list.
   */
  method FeedRecord(s1: Sequence, s2: Sequence, p: seq<int>, record: BamRecord, paired: bool, table: seq<int>)
    returns (s1': Sequence, s2': Sequence, p': seq<int>)
    requires !HasFlag(record, FlagUnmapped) ==> 0 <= record.rID < |table|
    ensures s1 != [] ==> s1' == s1
    ensures s2 != [] ==> s2' == s2
    ensures s1' != s1 ==> HasFlag(record, FlagFirst) && s1' == Oriented(record)
    ensures s2' != s2 ==> paired && HasFlag(record, FlagLast) && s2' == Oriented(record)
    ensures HasFlag(record, FlagFirst) && s1 == [] ==> s1' == Oriented(record)
    ensures !(HasFlag(record, FlagFirst) && s1 == []) && paired && HasFlag(record, FlagLast) && s2 == [] ==>
              s2' == Oriented(record)
    ensures HasFlag(record, FlagUnmapped) ==> p' == p
    ensures !HasFlag(record, FlagUnmapped) ==> p' == p + [table[record.rID]]
    ensures Mates(s1', s2') == MateStep(Mates(s1, s2), record, paired)
    ensures p' == p + Transcripts([record], table)
  {
    s1', s2' := s1, s2;
    if HasFlag(record, FlagFirst) && |s1| == 0 {
      s1' := Oriented(record);
    } else if paired && HasFlag(record, FlagLast) && |s2| == 0 {
      s2' := Oriented(record);
    }
    p' := p;
    if !HasFlag(record, FlagUnmapped) {
      p' := p + [table[record.rID]];
    }
  }

  /** Before anything is read, the whole group is still owed. */
  lemma GroupRestStart(records: seq<BamRecord>, start: nat, end: nat, paired: bool, table: seq<int>)
    returns (mates: Mates, trans: seq<int>)
    requires start < end <= |records| && Resolvable(records, table)
    requires paired == HasFlag(records[start], FlagMultiple)
    ensures Resolvable(records[start..end], table)
    ensures mates == GroupMates(records[start..end])
    ensures trans == Transcripts(records[start..end], table)
    ensures GroupRest(records, start, end, Mates([], []), [], paired, table, mates, trans)
  {
    ResolvableSlice(records, start, end, table);
    assert records[start..end][0] == records[start];
    mates := GroupMates(records[start..end]);
    trans := Transcripts(records[start..end], table);
  }

  /** With nothing left unread, what was read is the whole group's. */
  lemma GroupRestDone(records: seq<BamRecord>, end: nat, m: Mates, p: seq<int>, paired: bool,
                      table: seq<int>, mates: Mates, trans: seq<int>)
    requires GroupRest(records, end, end, m, p, paired, table, mates, trans)
    ensures m == mates && p == trans
  {
    assert records[end..end] == [];
  }

  /**
    One pass through the body of the group loop (src/ProcessReads.h:177-210):
    feeds record `i` into the mates and the transcript list, then looks at the
    record after it; the group goes on only if there is one and it carries the
    same name.
   */
  method AdvanceGroup(records: seq<BamRecord>, start: nat, i: nat, ghost end: nat,
                      s1: Sequence, s2: Sequence, p: seq<int>, paired: bool, table: seq<int>,
                      ghost mates: Mates, ghost trans: seq<int>)
    returns (i': nat, s1': Sequence, s2': Sequence, p': seq<int>, more: bool, done: bool)
    requires start < |records| && end == start + LeadRun(records[start..])
    requires start <= i < end && Resolvable(records, table)
    requires GroupRest(records, i, end, Mates(s1, s2), p, paired, table, mates, trans)
    ensures i' == i + 1 && (more <==> i' < end) && (done <==> i' == |records|)
    ensures GroupRest(records, i', end, Mates(s1', s2'), p', paired, table, mates, trans)
  {
    GroupStep(records, i, end, Mates(s1, s2), p, paired, table, mates, trans);
    s1', s2', p' := FeedRecord(s1, s2, p, records[i], paired, table);
    i' := i + 1;
    done := i' == |records|;
    if done {
      more := false;
    } else {
      LookaheadStep(records, start, i);
      more := records[i].qName == records[i'].qName;
    }
  }

  /**
    The group loop, the `while (true)` at src/ProcessReads.h:175-211: starting
    from record `start`, each pass is one `AdvanceGroup`, until the group ends
    at `end`, the end of the stream or a change of name.
   */
  method FeedGroup(records: seq<BamRecord>, start: nat, ghost end: nat, paired: bool, table: seq<int>,
                   ghost mates: Mates, ghost trans: seq<int>)
    returns (next: nat, s1: Sequence, s2: Sequence, p: seq<int>, done: bool)
    requires start < |records| && end == start + LeadRun(records[start..]) && Resolvable(records, table)
    requires GroupRest(records, start, end, Mates([], []), [], paired, table, mates, trans)
    ensures next == end && (done <==> next == |records|)
    ensures GroupRest(records, next, end, Mates(s1, s2), p, paired, table, mates, trans)
  {
    p := [];
    s1 := [];
    s2 := [];
    done := false;
    next := start;
    var more := true;
    while more
      invariant start <= next <= end
      invariant more <==> next < end
      invariant !more ==> (done <==> next == |records|)
      invariant GroupRest(records, next, end, Mates(s1, s2), p, paired, table, mates, trans)
      decreases end - next
    {
      next, s1, s2, p, more, done := AdvanceGroup(records, start, next, end, s1, s2, p, paired, table, mates, trans);
    }
  }

  /**
    Reads one group starting at record `start`: feeds each record into the
    mate sequences and the transcript list, and after each record looks at the
    next one, stopping at the end of the stream or at a change of name.
   */
  method ReadGroup(records: seq<BamRecord>, start: nat, table: seq<int>)
    returns (next: nat, s1: Sequence, s2: Sequence, p: seq<int>, done: bool)
    requires start < |records| && Resolvable(records, table)
    ensures next == start + LeadRun(records[start..])
    ensures done <==> next == |records|
    ensures Mates(s1, s2) == GroupMates(records[start..next])
    ensures p == Transcripts(records[start..next], table)
  {
    var paired := HasFlag(records[start], FlagMultiple);
    ghost var end := start + LeadRun(records[start..]);
    ghost var mates, trans := GroupRestStart(records, start, end, paired, table);
    next, s1, s2, p, done := FeedGroup(records, start, end, paired, table, mates, trans);
    GroupRestDone(records, next, Mates(s1, s2), p, paired, table, mates, trans);
  }

  /**
    One logical read of the alignment pipeline: read the group starting at
    `start`, clear the hit buffer and match the group's mates, hand the hits to
    the collector, canonicalise the group's transcript list and classify the
    comparison.
   */
  method ProcessGroup(records: seq<BamRecord>, start: nat, table: seq<int>, opts: Options, index: Index, collect: Collector)
    returns (next: nat, done: bool, v: seq<Hit>, verdict: Verdict)
    requires start < |records| && Resolvable(records, table)
    ensures next == start + LeadRun(records[start..])
    ensures done <==> next == |records|
    ensures Resolvable(records[start..next], table)
    ensures v == GroupHits(records[start..next], opts, index)
    ensures verdict == GroupVerdict(records[start..next], table, opts, index, collect)
  {
    var paired := HasFlag(records[start], FlagMultiple);
    var s1, s2, p;
    next, s1, s2, p, done := ReadGroup(records, start, table);
    ghost var g := records[start..next];
    assert g[0] == records[start];
    ResolvableSlice(records, start, next, table);
    v := [];
    v := MatchFragment(v, index.matcher, s1, s2, paired, LeftPos(opts));
    assert v == GroupHits(g, opts, index);
    var ec := collect(v);
    var lp := SortAndDedup(p);
    verdict := Classify(lp, ec, index.ecmapinv);
  }

  /**
    The state of the group loop after the groups in `processed`: they are the
    first runs of the stream, record `i` starts the next one, and the counters
    and collected hit sets are those of the processed groups.
   */
  ghost predicate Progress(records: seq<BamRecord>, table: seq<int>, opts: Options, index: Index, collect: Collector,
                           i: nat, processed: seq<seq<BamRecord>>, verdicts: seq<Verdict>,
                           collected: seq<seq<Hit>>, tally: Tally, nreads: nat)
  {
    && i <= |records|
    && Runs(records) == processed + Runs(records[i..])
    && WellFormedGroups(processed, table)
    && nreads == |processed|
    && verdicts == Verdicts(processed, table, opts, index, collect)
    && collected == HitSets(processed, opts, index)
    && tally == TallyOf(verdicts)
  }

  /** Appending a group appends its verdict. */
  lemma VerdictsSnoc(processed: seq<seq<BamRecord>>, g: seq<BamRecord>,
                     table: seq<int>, opts: Options, index: Index, collect: Collector)
    requires WellFormedGroups(processed, table)
    requires |g| > 0 && Resolvable(g, table)
    ensures WellFormedGroups(processed + [g], table)
    ensures Verdicts(processed + [g], table, opts, index, collect)
      == Verdicts(processed, table, opts, index, collect) + [GroupVerdict(g, table, opts, index, collect)]
  {
    var processed' := processed + [g];
    assert forall k :: 0 <= k < |processed| ==> processed'[k] == processed[k];
  }

  /** Appending a group appends its hit set. */
  lemma HitSetsSnoc(processed: seq<seq<BamRecord>>, g: seq<BamRecord>, opts: Options, index: Index)
    requires forall k :: 0 <= k < |processed| ==> |processed[k]| > 0
    requires |g| > 0
    ensures HitSets(processed + [g], opts, index) == HitSets(processed, opts, index) + [GroupHits(g, opts, index)]
  {
    var processed' := processed + [g];
    assert forall k :: 0 <= k < |processed| ==> processed'[k] == processed[k];
  }

  /** The run partition of the stream advances by the group at `i`. */
  lemma RunsSnoc(records: seq<BamRecord>, i: nat, next: nat, processed: seq<seq<BamRecord>>)
    requires i < |records| && next == i + LeadRun(records[i..])
    requires Runs(records) == processed + Runs(records[i..])
    ensures Runs(records) == (processed + [records[i..next]]) + Runs(records[next..])
  {
    RunsStep(records, i, next);
    ShiftHead(Runs(records), processed, Runs(records[i..]), records[i..next], Runs(records[next..]));
  }

  /** Processing the group at record `i` advances the loop state to the next group. */
  lemma ProgressStep(records: seq<BamRecord>, table: seq<int>, opts: Options, index: Index, collect: Collector,
                     i: nat, processed: seq<seq<BamRecord>>, verdicts: seq<Verdict>,
                     collected: seq<seq<Hit>>, tally: Tally, nreads: nat,
                     next: nat, v: seq<Hit>, verdict: Verdict)
    requires Progress(records, table, opts, index, collect, i, processed, verdicts, collected, tally, nreads)
    requires i < |records| && next == i + LeadRun(records[i..])
    requires Resolvable(records[i..next], table)
    requires v == GroupHits(records[i..next], opts, index)
    requires verdict == GroupVerdict(records[i..next], table, opts, index, collect)
    ensures Progress(records, table, opts, index, collect, next, processed + [records[i..next]], verdicts + [verdict],
                     collected + [v], Record(tally, verdict), nreads + 1)
  {
    var g := records[i..next];
    RunsSnoc(records, i, next, processed);
    TallyOfSnoc(verdicts, verdict);
    VerdictsSnoc(processed, g, table, opts, index, collect);
    HitSetsSnoc(processed, g, opts, index);
  }

  /** Once the loop has consumed the stream, its state is the reference result. */
  lemma ProgressDone(records: seq<BamRecord>, table: seq<int>, opts: Options, index: Index, collect: Collector,
                     processed: seq<seq<BamRecord>>, verdicts: seq<Verdict>,
                     collected: seq<seq<Hit>>, tally: Tally, nreads: nat)
    requires records != [] && Resolvable(records, table)
    requires Progress(records, table, opts, index, collect, |records|, processed, verdicts, collected, tally, nreads)
    ensures BamSummary(nreads, tally, collected) == BamReference(records, table, opts, index, collect)
  {
    assert records[|records|..] == [];
    assert processed == Runs(records);
    RunsResolvable(records, table);
  }

  /**
    The record loop of the alignment pipeline: return early on an empty
    stream; otherwise process one logical read per group, counting each
    comparison's verdict.
   */
  method ProcessRecords(records: seq<BamRecord>, table: seq<int>, opts: Options, index: Index, collect: Collector)
    returns (report: BamReport)
    requires Resolvable(records, table)
    ensures report == BamReference(records, table, opts, index, collect)
  {
    if |records| == 0 {
      return EmptyBamFile;
    }
    var i := 0;
    var done := false;
    var nreads := 0;
    var tally := EmptyTally;
    var collected: seq<seq<Hit>> := [];
    ghost var processed: seq<seq<BamRecord>> := [];
    ghost var verdicts: seq<Verdict> := [];
    assert records[0..] == records;
    while !done
      invariant done <==> i == |records|
      invariant Progress(records, table, opts, index, collect, i, processed, verdicts, collected, tally, nreads)
      decreases |records| - i
    {
      var next, d, v, verdict := ProcessGroup(records, i, table, opts, index, collect);
      ProgressStep(records, table, opts, index, collect, i, processed, verdicts, collected, tally, nreads, next, v, verdict);
      nreads := nreads + 1;
      tally := Record(tally, verdict);
      collected := collected + [v];
      verdicts := verdicts + [verdict];
      processed := processed + [records[i..next]];
      i := next;
      done := d;
    }
    ProgressDone(records, table, opts, index, collect, processed, verdicts, collected, tally, nreads);
    report := BamSummary(nreads, tally, collected);
  }

  /**
    The alignment pipeline: build the reference-to-transcript table from the
    header's contig names, then run the record loop.  An empty stream yields
    no summary; otherwise there is one logical read per group and the
    counters account for at most that many reads.
   */
  method ProcessBams(cnames: seq<string>, records: seq<BamRecord>, opts: Options, index: Index, collect: Collector)
    returns (report: BamReport)
    requires Resolvable(records, BuildTable(index.targetNames, cnames))
    ensures report == BamReference(records, BuildTable(index.targetNames, cnames), opts, index, collect)
    ensures records == [] <==> report == EmptyBamFile
    ensures report.BamSummary? ==> report.nreads == |Runs(records)| && Total(report.tally) <= report.nreads
  {
    var table := BuildTable(index.targetNames, cnames);
    report := ProcessRecords(records, table, opts, index, collect);
    BamTallyBound(records, table, opts, index, collect);
  }
}
