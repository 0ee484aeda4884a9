/**
  The reference-to-transcript table of the alignment pipeline: each contig
  named in the alignment header is looked up by name among the index's
  transcript names, and the transcript ids found are collected in header
  order.  Names that are not found are reported and skipped.
 */
module ContigTable {

  datatype Option<T> = None | Some(value: T)

  /**
    The id the name lookup map gives `name`: the map is filled in transcript
    order with inserts that never overwrite, so the first transcript of that
    name wins.
   */
  function FirstIndex(names: seq<string>, name: string): (r: Option<nat>)
    ensures r.Some? ==> r.value < |names| && names[r.value] == name
    ensures r.Some? ==> forall j :: 0 <= j < r.value ==> names[j] != name
    ensures r.None? <==> name !in names
  {
    if names == [] then None
    else if names[0] == name then Some(0)
    else
      var r := FirstIndex(names[1..], name);
      assert name in names[1..] <==> name in names;
      if r.Some? then Some(r.value + 1) else None
  }

  /**
    The reference-to-transcript table: the ids of the resolvable header names,
    in header order, with every header name visited; unresolved names add
    nothing.
   */
  function BuildTable(targets: seq<string>, cnames: seq<string>): (table: seq<int>)
    ensures |table| <= |cnames|
    ensures forall t :: 0 <= t < |table| ==> 0 <= table[t] < |targets|
  {
    if cnames == [] then []
    else
      var id := FirstIndex(targets, cnames[0]);
      (if id.Some? then [id.value as int] else []) + BuildTable(targets, cnames[1..])
  }

  /**
    When every header name is a transcript name, the table is aligned with the
    header: reference id `i` maps to the first transcript named like contig `i`.
   */
  lemma {:induction false} BuildTableAligned(targets: seq<string>, cnames: seq<string>)
    requires forall i :: 0 <= i < |cnames| ==> cnames[i] in targets
    ensures |BuildTable(targets, cnames)| == |cnames|
    ensures forall i :: 0 <= i < |cnames| ==>
      BuildTable(targets, cnames)[i] == FirstIndex(targets, cnames[i]).value
  {
    if cnames != [] {
      BuildTableAligned(targets, cnames[1..]);
      var rest := BuildTable(targets, cnames[1..]);
      var id := FirstIndex(targets, cnames[0]);
      assert BuildTable(targets, cnames) == [id.value as int] + rest;
      forall i | 1 <= i < |cnames|
        ensures BuildTable(targets, cnames)[i] == FirstIndex(targets, cnames[i]).value
      {
        assert cnames[1..][i - 1] == cnames[i];
      }
    }
  }

  /**
    An unresolved header name leaves the table shorter than the header, so the
    entries after it no longer line up with their reference ids.
   */
  lemma {:induction false} UnresolvedShifts(targets: seq<string>, cnames: seq<string>, i: nat)
    requires i < |cnames| && cnames[i] !in targets
    ensures |BuildTable(targets, cnames)| < |cnames|
  {
    if i > 0 {
      UnresolvedShifts(targets, cnames[1..], i - 1);
    }
  }

  /** The outcome of the header loop as written: a table, or a read of a header name past the last one. */
  datatype LoopOutcome = Built(table: seq<int>) | ReadPastEnd(at: nat)

  /**
    The header loop with its bound as written: it continues while the index
    is below the LENGTH OF THE NAME at that index, not the number of names.
   */
  function HeaderLoopAsWritten(targets: seq<string>, cnames: seq<string>, i: nat, acc: seq<int>): (r: LoopOutcome)
    requires i <= |cnames|
    ensures r.ReadPastEnd? ==> r.at == |cnames|
    ensures r.Built? ==> |r.table| <= |acc| + |cnames| - i
    decreases |cnames| - i
  {
    if i >= |cnames| then ReadPastEnd(i)
    else if !(i < |cnames[i]|) then Built(acc)
    else
      var id := FirstIndex(targets, cnames[i]);
      HeaderLoopAsWritten(targets, cnames, i + 1, acc + if id.Some? then [id.value as int] else [])
  }

  /**
    Two transcripts "t1" and "t" in header order: the loop stops after the
    first because "t" is only one character long, so reference id 1 has no
    entry, where the intended table is [0, 1].
   */
  lemma AsWrittenStopsEarly()
    ensures HeaderLoopAsWritten(["t1", "t"], ["t1", "t"], 0, []) == Built([0])
    ensures BuildTable(["t1", "t"], ["t1", "t"]) == [0, 1]
  {
    BuildTableAligned(["t1", "t"], ["t1", "t"]);
    assert FirstIndex(["t1", "t"], "t").value == 1 by {
      assert ["t1", "t"][1..] == ["t"];
    }
  }

  /**
    One transcript "t1": the bound 0 < 2 and then 1 < length of name 1 reads a
    header name that does not exist, where the intended table is [0].
   */
  lemma AsWrittenReadsPastEnd()
    ensures HeaderLoopAsWritten(["t1"], ["t1"], 0, []) == ReadPastEnd(1)
    ensures BuildTable(["t1"], ["t1"]) == [0]
  {
    BuildTableAligned(["t1"], ["t1"]);
  }
}
