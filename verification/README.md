# kallisto read pipeline, modelled in Dafny

This project models the per-read pipeline of kallisto's `ProcessReads.h`. It has two entry points.

- `ProcessReads` pulls reads from one sequence file (single-end) or two synchronized files (paired-end). For each read it clears the hit buffer and runs the index's k-mer matcher on mate 1 and then on mate 2. Only mate 2's hits are projected into mate 1's frame: their position becomes `max(leftpos - p, 0)` with `leftpos = fld - k`. The hit set is then handed to the equivalence-class collector.
- `ProcessBams` validates the matcher against alignments, in five steps:
  - It reads a stream of alignment records and groups adjacent records with equal query names into logical reads, using one record of lookahead.
  - Each group supplies the mates. Mate 1 is the first first-segment record with a non-empty sequence: a first-segment record with an empty sequence leaves mate 1 empty, so a later one still fills it. When the group's first record is paired, mate 2 is the first last-segment record with a non-empty sequence that does not fill mate 1 instead. So a record with both segment flags fills mate 2 only once mate 1 is set. A reverse-complemented record is restored to read orientation.
  - Each mapped record of the group adds its transcript id. The ids are sorted and deduplicated.
  - The group is matched and collected exactly like a sequence-file read.
  - The class the alignments name in the index's reverse class map is compared with the collector's class, and the outcome falls into one of five counters.

The matcher and the collector are function values: `Matcher = Sequence -> seq<Hit>` and `Collector = seq<Hit> -> EcId`, where `EcId` is an int of at least -1. An input file is the list of its records. The flag bits are the ones in section 1.4 of the SAM format specification.

The model is split into these modules:

| module | contents |
|---|---|
| `Fragment` | hit assembly and the mate-2 correction |
| `KmerIndex` | the index: matcher, reverse class map and transcript names |
| `SeqLemmas` | generic facts about sequence slices |
| `ReadStreams` | the sequence-file loop |
| `Bam` | alignment records, mates and transcript ids |
| `Grouping` | maximal runs of equal names |
| `TranscriptSets` | sort and dedup |
| `Confusion` | classification and the tally |
| `ContigTable` | the reference-to-transcript table |
| `Validation` | the alignment loop |
| `Scenarios` | worked cases |

The read loop, the alignment record loops, the mate-2 correction loop and the dedup loop of the source are each a `method` written like the source loop. Each is proved equal to a functional reference definition: `ReadsReference`, `BamReference`, `CorrectMate2`, and `Normalize` for sorting followed by the dedup loop (`TranscriptSets.SortAndDedup`). The name-map and header loops of the table are modelled by recursive functions (`ContigTable.FirstIndex`, `ContigTable.BuildTable`, `ContigTable.HeaderLoopAsWritten`). The properties are stated about those reference definitions.

Two behaviours of the code are kept as written, although a reader might expect otherwise:

- An empty alignment stream returns before the summary, and no counts file is written (`src/ProcessReads.h:152-155`). The model gives `EmptyBamFile`.
- A non-empty alignment set that is not a class of the index changes no counter. So the five counters do not partition the reads; they only bound them (`Confusion.TallyCounts`).

## Model

| member | source | states |
|---|---|---|
| `Fragment.MirrorPos` | src/ProcessReads.h:71-74 | a projected mate-2 position is never negative, and it is `leftpos - p` unless that is negative, in which case it is 0 |
| `Fragment.MirrorPosAntitone` | src/ProcessReads.h:73 | the projected position never grows when the raw position grows |
| `Fragment.MirrorAll` | src/ProcessReads.h:72-74 | projecting a list of hits keeps its length, order and transcript ids, and projects each position |
| `Fragment.CorrectMate2` | src/ProcessReads.h:66-75 | hits before `vl` (mate 1's) are unchanged; every hit keeps its transcript id and the buffer keeps its length; each hit from `vl` on gets the floored projection of its position |
| `Fragment.CorrectMate2InPlace` | src/ProcessReads.h:72-74 | the in-place rewriting loop from index `vl` gives exactly the corrected hit list |
| `Fragment.FragmentHits` | src/ProcessReads.h:65-75 | unpaired, the hits are mate 1's matcher output; paired, they are mate 1's hits unchanged followed by mate 2's hits with projected positions, and there are as many as both matcher outputs together |
| `Fragment.MatchFragment` | src/ProcessReads.h:63-75 | matching appends the fragment's hits after whatever the buffer holds, so once the buffer is cleared the hit set depends only on that read's mates |
| `ReadStreams.ReadCountFrom` | src/ProcessReads.h:50-60 | the loop stops at the first record index where a pull of an open stream returns a length of at most 0 (a pull past a stream's end returns -1), so the read count never exceeds either stream's length |
| `ReadStreams.ReadCountIsMin` | src/ProcessReads.h:50-62 | with no empty records, a single stream is read to its end, and a pair of streams yields the shorter stream's length of reads, with no error for the longer one |
| `ReadStreams.ProcessReads` | src/ProcessReads.h:22-82 | the read loop hands the collector, in order, the hit set of each read built from that read's own mates, and processes exactly the read count; it never processes more reads than either stream holds |
| `Bam.ReverseComplement` | src/ProcessReads.h:179-181 | the reverse complement has the same length, and position `i` holds the complement of the base mirrored at `i` |
| `Bam.ReverseComplementInvolutive` | src/ProcessReads.h:178-186 | reverse-complementing twice gives the stored sequence back |
| `Bam.Oriented` | src/ProcessReads.h:178-186 | a record flagged reverse-complemented yields the sequence whose reverse complement is the stored one; any other record yields its stored sequence |
| `Bam.MateStep` | src/ProcessReads.h:177-191 | a first-segment record fills an empty mate 1 with its oriented sequence; otherwise, in a paired group, a last-segment record fills an empty mate 2 with its oriented sequence; a non-empty mate is never overwritten; mate 1 changes only to the oriented sequence of a first-segment record, and then mate 2 does not change; mate 2 changes only in a paired group, to the oriented sequence of a last-segment record |
| `Bam.CollectMates` | src/ProcessReads.h:175-191 | over a whole group, a non-empty mate is kept, mate 2 never changes in an unpaired group, and a changed mate 1 is the oriented sequence of one of the group's first-segment records |
| `Bam.FirstFlagged` | src/ProcessReads.h:177-186 | a non-empty result is the oriented sequence of the first record that carries the flag and has a non-empty sequence, and no earlier record does both; an empty result means no record of the group does both |
| `Bam.Mate1IsFirstFlagged` | src/ProcessReads.h:177-181 | mate 1 is the oriented sequence of the first first-segment record with a non-empty sequence, and later first-segment records do not overwrite it |
| `Bam.Mate2IsLastFlagged` | src/ProcessReads.h:182-186 | mate 2 stays empty in an unpaired group; in a paired group where no record carries both segment flags, it is the oriented sequence of the first last-segment record with a non-empty sequence |
| `Bam.GroupMate2NeedsPairedHead` | src/ProcessReads.h:169-186 | mate 2 is present only if the group's first record has the multiple-segments flag, because `paired` is fixed once per group |
| `Bam.Transcripts` | src/ProcessReads.h:195-197 | the transcript list has at most one id per record, and every id in it is a table entry |
| `Bam.TranscriptsMembers` | src/ProcessReads.h:195-197 | the transcript list holds exactly the table entries of the mapped records; a group of unmapped records yields an empty list |
| `Grouping.LeadRun` | src/ProcessReads.h:199-210 | the leading run has at least one record, all of its records share the first name, and the record after it has a different name |
| `Grouping.Runs` | src/ProcessReads.h:168-211 | the groups are non-empty, their concatenation is the stream, each holds one name, and adjacent groups differ in name where they meet |
| `Grouping.RunsUnique` | src/ProcessReads.h:168-211 | any such partition into runs is the grouping, so every record lands in exactly one group and non-adjacent equal names form separate groups |
| `Grouping.RunsResolvable` | src/ProcessReads.h:195-196 | if every mapped record of the stream names a table entry, so does every mapped record of every group |
| `TranscriptSets.Insert` | src/ProcessReads.h:241 | inserting into a sorted list keeps it sorted and adds exactly one copy of the element |
| `TranscriptSets.SortAsc` | src/ProcessReads.h:241 | the ascending sort is sorted and a permutation of its input |
| `TranscriptSets.Dedup` | src/ProcessReads.h:242-250 | removing neighbour repeats from a sorted list gives a strictly increasing list with the same elements and the same first element |
| `TranscriptSets.Normalize` | src/ProcessReads.h:241-250 | the canonical transcript set is strictly increasing and has exactly the elements of the raw list |
| `TranscriptSets.StrictlyIncreasingUnique` | src/ProcessReads.h:241-250 | two strictly increasing lists with the same elements are equal |
| `TranscriptSets.NormalizeCanonical` | src/ProcessReads.h:241-253 | lists with the same elements give the same lookup key, whatever their order and repeats |
| `TranscriptSets.DedupSorted` | src/ProcessReads.h:242-250 | the dedup loop (keep the first element, then each element that differs from its predecessor) gives a strictly increasing list with the elements of its input |
| `TranscriptSets.SortAndDedup` | src/ProcessReads.h:241-250 | sorting and then the dedup loop give the canonical transcript set |
| `Confusion.Classify` | src/ProcessReads.h:252-272 | each of the six outcomes holds exactly under its condition (an if-and-only-if for each), so exactly one applies: empty list with a class gives alignKnotB, empty list with -1 gives alignNone, a listed key with an equal class gives exactMatch, a listed key with -1 gives alignBnotK, a listed key with another class gives mismatch, and an unlisted key gives no count |
| `Confusion.Record` | src/ProcessReads.h:252-272 | counting a verdict moves only its own counter, by one, and leaves everything unchanged for an unlisted key |
| `Confusion.TallyCounts` | src/ProcessReads.h:162-272 | each counter equals the number of reads with its verdict; the counters plus the unrecorded reads add up to the read count, so their sum never exceeds it |
| `ContigTable.FirstIndex` | src/ProcessReads.h:131-134 | the name map gives the first transcript with that name, and it has no entry for a name that no transcript has |
| `ContigTable.BuildTable` | src/ProcessReads.h:135-144 | the table has at most one entry per header name, and every entry is a valid transcript id |
| `ContigTable.BuildTableAligned` | src/ProcessReads.h:135-144 | when every header name resolves, reference id `i` maps to the transcript named like header contig `i` |
| `ContigTable.UnresolvedShifts` | src/ProcessReads.h:139-143 | an unresolved header name leaves the table shorter than the header |
| `ContigTable.HeaderLoopAsWritten` | src/ProcessReads.h:136 | with the loop bound as written, the only failure is a read of the header name one past the last, and a built table is never longer than the header |
| `ContigTable.AsWrittenStopsEarly` | src/ProcessReads.h:136 | header `t1, t`: the loop as written builds `[0]`, where the intended table is `[0, 1]` |
| `ContigTable.AsWrittenReadsPastEnd` | src/ProcessReads.h:136 | header `t1`: the loop as written reads a second header name that does not exist, where the intended table is `[0]` |
| `Validation.LookaheadStep` | src/ProcessReads.h:205-210 | the lookahead continues the group exactly when the next record's name equals the current one's |
| `Validation.FeedRecord` | src/ProcessReads.h:177-197 | a first-segment record fills an empty mate 1, and otherwise, in a paired group, a last-segment record fills an empty mate 2, each with the record's oriented sequence; one record never overwrites a non-empty mate; mate 1 changes only to a first-segment record's oriented sequence, mate 2 only in a paired group to a last-segment record's; an unmapped record adds no transcript id, and a mapped one appends the table entry of its reference id |
| `Validation.AdvanceGroup` | src/ProcessReads.h:177-210 | one turn of the inner loop feeds one record and goes on exactly when the record after it exists and lies in the same group; it reports the end of the stream exactly when the fed record was the last one |
| `Validation.FeedGroup` | src/ProcessReads.h:175-211 | the inner loop stops exactly at the end of the group, having fed every record of it, and reports the end of the stream exactly when the group reaches it |
| `Validation.ReadGroup` | src/ProcessReads.h:175-211 | the inner loop consumes exactly the maximal run starting at the current record, yields that run's mates and transcript list, and reports the end of the stream exactly when the run reaches it |
| `Validation.ProcessGroup` | src/ProcessReads.h:168-272 | one pass of the outer loop collects the group's hit set and classifies the group's canonical transcript set against the collector's class |
| `Validation.BamTallyBound` | src/ProcessReads.h:152-272 | an empty stream gives no summary; otherwise there is one read per group and the counters add up to at most the read count |
| `Validation.ProcessRecords` | src/ProcessReads.h:151-273 | the record loop returns early on an empty stream and otherwise yields, per maximal run in order, the hit set handed to the collector and the counted verdict |
| `Validation.ProcessBams` | src/ProcessReads.h:102-273 | the alignment pipeline builds the table from every header name (the corrected loop of the finding below) and then processes one logical read per group; an empty stream is the only case without a summary, and the counters never exceed the read count |
| `Scenarios.PositionCorrectionCase` | src/ProcessReads.h:223-232 | with fragment length 200 and k = 31, mate-2 hit (5, 3) becomes (5, 166) after mate 1's hits (5, 2), (5, 10) |
| `Scenarios.ComparisonCases` | src/ProcessReads.h:252-272 | for key [3, 7] naming class 42: class 42 is exactMatch, class 5 is mismatch, -1 is alignBnotK, an unlisted key counts nothing, and an empty key is alignKnotB or alignNone |
| `Scenarios.CanonicalKeyCase` | src/ProcessReads.h:241-250 | any list that holds only transcripts 7 and 3, however repeated or ordered, gives key [3, 7] |
| `Scenarios.NonAdjacentNamesCase` | src/ProcessReads.h:205-210 | records named r, s, r form three groups |

## Left out

- Decompression and parsing of FASTQ (gzip, kseq) and of BAM (seqan's `BamFileIn`, `readHeader`, `readRecord`, `atEnd`) are foreign library I/O. Each input is given as the list of its records.
- A kseq pull is modelled as the record's length, or -1 past the end. kseq's -2 code for a truncated quality string is not modelled.
- Writing `counts.txt` through the collector, the progress line every 10000 reads, the warnings and the printed summary (src/ProcessReads.h:79-81, 93-98, 275-287) are output only.
- The collector's internal per-class counts are external state. The model records the ordered list of hit sets handed to `collect`, which determines them.
- The collector's class for a hit set is a function value, so it is modelled as independent of earlier reads.
- `(int) opt.fld` and C `int` overflow are not modelled: positions, `leftpos` and the counters are mathematical integers.
- seqan's `reverseComplement` is modelled as a reverse complement on A, C, G, T in both cases, leaving other characters unchanged. It makes no claim of fidelity to seqan beyond that alphabet.
- A record's reference id must have a table entry when the record is mapped (`Resolvable`). The source indexes `rIdToTrans` unchecked, so anything else is undefined behaviour there.
- `ContigTable.BuildTable` keeps the source's skipping of unresolved header names, which shifts later entries (`ContigTable.UnresolvedShifts`). What was meant instead is not evident, so it is not claimed as a finding.
- ReadStreams.ReadCountIsMin: states the minimum only for streams without empty records. An empty record also ends the loop (`l <= 0`), as `ReadStreams.ReadCountFrom` states in general.
- Validation.ProcessBams: builds the reference-to-transcript table with the corrected loop over every header name (`ContigTable.BuildTable`), not with the bound as written at src/ProcessReads.h:136. The as-written loop is modelled separately (`ContigTable.HeaderLoopAsWritten`, see Findings).
- Bam.Mate2IsLastFlagged: characterises mate 2 only for groups where no record carries both segment flags. Such a record fills mate 1 first and mate 2 only once mate 1 is set, which `Bam.MateStep` models literally.

## Findings

| source | as written | input that shows it | evidently intended | confidence | as-written member | corrected member |
|---|---|---|---|---|---|---|
| src/ProcessReads.h:136 | the header loop runs while `i` is below the length of the `i`-th contig NAME | header and transcripts `t1, t`: the loop stops after `t1` (since `1 < length("t")` fails), so a record on reference 1 indexes past the table; header `t1`: it goes on to read header name 1, which does not exist | loop over every header name, `i < length(cnames)` | high; not executed | `ContigTable.HeaderLoopAsWritten`, `ContigTable.AsWrittenStopsEarly`, `ContigTable.AsWrittenReadsPastEnd` | `ContigTable.BuildTable`, `ContigTable.BuildTableAligned` |
