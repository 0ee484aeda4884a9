/**
  Alignment records and what one group of them yields: the two mate sequences
  (restored to read orientation) and the transcript ids of the mapped records.
  Flag bits follow section 1.4 of the SAM format specification.
 */
module Bam {
  import opened Fragment

  /** The record is one segment of a multi-segment template (paired). */
  const FlagMultiple: bv16 := 0x0001
  /** The segment is unmapped. */
  const FlagUnmapped: bv16 := 0x0004
  /** The stored sequence is reverse-complemented. */
  const FlagRC: bv16 := 0x0010
  /** The segment is the first of its template (mate 1). */
  const FlagFirst: bv16 := 0x0040
  /** The segment is the last of its template (mate 2). */
  const FlagLast: bv16 := 0x0080

  /** The fields of an alignment record the pipeline reads. */
  datatype BamRecord = BamRecord(qName: string, flag: bv16, rID: int, bases: Sequence)

  predicate HasFlag(r: BamRecord, f: bv16)
  {
    r.flag & f == f
  }

  /** Base complement on upper- and lower-case nucleotides; every other character is left as is. */
  function Complement(c: char): char
  {
    match c
    case 'A' => 'T'
    case 'T' => 'A'
    case 'C' => 'G'
    case 'G' => 'C'
    case 'a' => 't'
    case 't' => 'a'
    case 'c' => 'g'
    case 'g' => 'c'
    case _ => c
  }

  function ReverseComplement(s: Sequence): (r: Sequence)
    ensures |r| == |s|
    ensures forall i :: 0 <= i < |s| ==> r[i] == Complement(s[|s| - 1 - i])
  {
    if s == [] then [] else ReverseComplement(s[1..]) + [Complement(s[0])]
  }

  /** Reverse-complementing twice gives back the original sequence. */
  lemma ReverseComplementInvolutive(s: Sequence)
    ensures ReverseComplement(ReverseComplement(s)) == s
  {
    var r := ReverseComplement(ReverseComplement(s));
    forall i | 0 <= i < |s|
      ensures r[i] == s[i]
    {
      var c := s[i];
      assert Complement(Complement(c)) == c;
    }
  }

  /** A record's sequence in the read's original orientation. */
  function Oriented(r: BamRecord): (s: Sequence)
    ensures |s| == |r.bases|
    ensures HasFlag(r, FlagRC) ==> ReverseComplement(s) == r.bases
    ensures !HasFlag(r, FlagRC) ==> s == r.bases
  {
    if HasFlag(r, FlagRC) then
      ReverseComplementInvolutive(r.bases);
      ReverseComplement(r.bases)
    else r.bases
  }

  /** The two mate sequences gathered so far for one group. */
  datatype Mates = Mates(s1: Sequence, s2: Sequence)

  /**
    One record's contribution: a first-segment record fills an empty mate 1;
    otherwise, in a paired group, a last-segment record fills an empty mate 2.
   */
  function MateStep(m: Mates, r: BamRecord, paired: bool): (m': Mates)
    ensures m.s1 != [] ==> m'.s1 == m.s1
    ensures m.s2 != [] ==> m'.s2 == m.s2
    ensures m'.s1 != m.s1 ==> HasFlag(r, FlagFirst) && m'.s1 == Oriented(r)
    ensures m'.s2 != m.s2 ==> paired && HasFlag(r, FlagLast) && m'.s2 == Oriented(r)
    ensures m'.s1 != m.s1 ==> m'.s2 == m.s2
    ensures HasFlag(r, FlagFirst) && m.s1 == [] ==> m'.s1 == Oriented(r)
    ensures !(HasFlag(r, FlagFirst) && m.s1 == []) && paired && HasFlag(r, FlagLast) && m.s2 == [] ==>
              m'.s2 == Oriented(r)
  {
    if HasFlag(r, FlagFirst) && |m.s1| == 0 then Mates(Oriented(r), m.s2)
    else if paired && HasFlag(r, FlagLast) && |m.s2| == 0 then Mates(m.s1, Oriented(r))
    else m
  }

  /** Feeds the records of `g`, in order, through MateStep. */
  function CollectMates(m: Mates, g: seq<BamRecord>, paired: bool): (m': Mates)
    ensures m.s1 != [] ==> m'.s1 == m.s1
    ensures m.s2 != [] ==> m'.s2 == m.s2
    ensures !paired ==> m'.s2 == m.s2
    ensures m'.s1 != m.s1 ==> exists j :: 0 <= j < |g| && HasFlag(g[j], FlagFirst) && m'.s1 == Oriented(g[j])
    decreases |g|
  {
    if g == [] then m else CollectMates(MateStep(m, g[0], paired), g[1..], paired)
  }

  /** The record carries flag `f` and a non-empty sequence, so it can fill a mate. */
  predicate Supplies(r: BamRecord, f: bv16)
  {
    HasFlag(r, f) && r.bases != []
  }

  /** No record of `g` before position `j` can fill the mate of flag `f`. */
  predicate NoneBefore(g: seq<BamRecord>, f: bv16, j: int)
  {
    forall i :: 0 <= i < j && i < |g| ==> !Supplies(g[i], f)
  }

  /**
    The oriented sequence of the first record in `g` that carries flag `f` and a
    non-empty sequence, or the empty sequence when there is none.
   */
  function FirstFlagged(g: seq<BamRecord>, f: bv16): (s: Sequence)
    ensures s != [] ==> exists j :: 0 <= j < |g| && Supplies(g[j], f) && s == Oriented(g[j]) && NoneBefore(g, f, j)
    ensures s == [] ==> NoneBefore(g, f, |g|)
  {
    if g == [] then []
    else if Supplies(g[0], f) then Oriented(g[0])
    else
      var s := FirstFlagged(g[1..], f);
      assert forall j :: 1 <= j < |g| ==> g[j] == g[1..][j - 1];
      assert s != [] ==> exists j :: 1 <= j < |g| && Supplies(g[j], f) && s == Oriented(g[j]) && NoneBefore(g, f, j) by {
        if s != [] {
          var j :| 0 <= j < |g[1..]| && Supplies(g[1..][j], f) && s == Oriented(g[1..][j]) && NoneBefore(g[1..], f, j);
          assert g[1..][j] == g[j + 1];
        }
      }
      s
  }

  /**
    Mate 1 is the first first-segment record with a non-empty sequence; later
    first-segment records never overwrite it.
   */
  lemma {:induction false} Mate1IsFirstFlagged(m: Mates, g: seq<BamRecord>, paired: bool)
    ensures CollectMates(m, g, paired).s1 == if m.s1 != [] then m.s1 else FirstFlagged(g, FlagFirst)
    decreases |g|
  {
    if g != [] {
      Mate1IsFirstFlagged(MateStep(m, g[0], paired), g[1..], paired);
    }
  }

  /**
    Mate 2 stays as it was in an unpaired group; in a paired group where no
    record is flagged both first and last, it is the first last-segment record
    with a non-empty sequence.
   */
  lemma {:induction false} Mate2IsLastFlagged(m: Mates, g: seq<BamRecord>, paired: bool)
    ensures !paired ==> CollectMates(m, g, paired).s2 == m.s2
    ensures paired && (forall j :: 0 <= j < |g| ==> !(HasFlag(g[j], FlagFirst) && HasFlag(g[j], FlagLast))) ==>
      CollectMates(m, g, paired).s2 == if m.s2 != [] then m.s2 else FirstFlagged(g, FlagLast)
    decreases |g|
  {
    if g != [] {
      Mate2IsLastFlagged(MateStep(m, g[0], paired), g[1..], paired);
      if paired && (forall j :: 0 <= j < |g| ==> !(HasFlag(g[j], FlagFirst) && HasFlag(g[j], FlagLast))) {
        assert forall j :: 0 <= j < |g[1..]| ==> g[1..][j] == g[j + 1];
      }
    }
  }

  /** The group's mates, with `paired` taken from the group's first record only. */
  function GroupMates(g: seq<BamRecord>): Mates
    requires |g| > 0
  {
    CollectMates(Mates([], []), g, HasFlag(g[0], FlagMultiple))
  }

  /** Mate 2 can only be present when the group's first record says the template is paired. */
  lemma GroupMate2NeedsPairedHead(g: seq<BamRecord>)
    requires |g| > 0
    ensures GroupMates(g).s2 != [] ==> HasFlag(g[0], FlagMultiple)
    ensures GroupMates(g).s1 == FirstFlagged(g, FlagFirst)
  {
    Mate1IsFirstFlagged(Mates([], []), g, HasFlag(g[0], FlagMultiple));
    Mate2IsLastFlagged(Mates([], []), g, HasFlag(g[0], FlagMultiple));
  }

  /** A mapped record names a reference inside the reference-to-transcript table. */
  predicate Resolves(r: BamRecord, table: seq<int>)
  {
    !HasFlag(r, FlagUnmapped) ==> 0 <= r.rID < |table|
  }

  /** Every record of `g` resolves. */
  predicate Resolvable(g: seq<BamRecord>, table: seq<int>)
  {
    forall j :: 0 <= j < |g| ==> Resolves(g[j], table)
  }

  /** The transcript ids of the mapped records of `g`, in record order. */
  function Transcripts(g: seq<BamRecord>, table: seq<int>): (p: seq<int>)
    requires Resolvable(g, table)
    ensures |p| <= |g|
    ensures forall k :: 0 <= k < |p| ==> p[k] in table
  {
    if g == [] then []
    else
      var rest := Transcripts(g[1..], table);
      if HasFlag(g[0], FlagUnmapped) then rest else [table[g[0].rID]] + rest
  }

  /**
    The transcript list holds exactly the transcripts of the mapped records;
    unmapped records contribute nothing.
   */
  lemma {:induction false} TranscriptsMembers(g: seq<BamRecord>, table: seq<int>)
    requires Resolvable(g, table)
    ensures forall j :: 0 <= j < |g| && !HasFlag(g[j], FlagUnmapped) ==> table[g[j].rID] in Transcripts(g, table)
    ensures forall t :: t in Transcripts(g, table) ==>
      exists j :: 0 <= j < |g| && !HasFlag(g[j], FlagUnmapped) && t == table[g[j].rID]
    ensures (forall j :: 0 <= j < |g| ==> HasFlag(g[j], FlagUnmapped)) ==> Transcripts(g, table) == []
  {
    if g != [] {
      TranscriptsMembers(g[1..], table);
      assert forall j :: 1 <= j < |g| ==> g[j] == g[1..][j - 1];
      var p := Transcripts(g, table);
      var rest := Transcripts(g[1..], table);
      forall t | t in p
        ensures exists j :: 0 <= j < |g| && !HasFlag(g[j], FlagUnmapped) && t == table[g[j].rID]
      {
        if t in rest {
          var j :| 0 <= j < |g[1..]| && !HasFlag(g[1..][j], FlagUnmapped) && t == table[g[1..][j].rID];
          assert g[1..][j] == g[j + 1];
        }
      }
    }
  }
}
