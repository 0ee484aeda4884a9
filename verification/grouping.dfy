/**
  Grouping of a flat alignment-record stream into logical reads: each group is
  a maximal run of adjacent records with equal query names.  Only neighbours
  are compared, so equal names that are not contiguous start separate groups.
 */
module Grouping {
  import opened Bam
  import opened SeqLemmas

  /** Concatenation of the groups, in order. */
  function Flatten(gs: seq<seq<BamRecord>>): seq<BamRecord>
  {
    if gs == [] then [] else gs[0] + Flatten(gs[1..])
  }

  /**
    `gs` splits `rs` into non-empty runs of equal names, and adjacent runs
    differ in name where they meet.
   */
  ghost predicate IsRunPartition(gs: seq<seq<BamRecord>>, rs: seq<BamRecord>)
  {
    && Flatten(gs) == rs
    && (forall k :: 0 <= k < |gs| ==> |gs[k]| > 0)
    && (forall k, j :: 0 <= k < |gs| && 0 <= j < |gs[k]| ==> gs[k][j].qName == gs[k][0].qName)
    && (forall k :: 0 <= k < |gs| - 1 ==> NamesDifferAt(gs, k))
  }

  /** The last record of group `k` and the first of group `k + 1` have different names. */
  ghost predicate NamesDifferAt(gs: seq<seq<BamRecord>>, k: nat)
    requires k + 1 < |gs| && |gs[k]| > 0 && |gs[k + 1]| > 0
  {
    gs[k][|gs[k]| - 1].qName != gs[k + 1][0].qName
  }

  /** Length of the maximal run of equal names at the head of `rs`. */
  function LeadRun(rs: seq<BamRecord>): (n: nat)
    requires |rs| > 0
    ensures 1 <= n <= |rs|
    ensures forall j :: 0 <= j < n ==> rs[j].qName == rs[0].qName
    ensures n < |rs| ==> rs[n].qName != rs[n - 1].qName
    decreases |rs|
  {
    if |rs| == 1 || rs[1].qName != rs[0].qName then 1 else 1 + LeadRun(rs[1..])
  }

  /** Prepending one run to a run partition of the rest gives a run partition of the whole. */
  lemma PartitionCons(g: seq<BamRecord>, gs: seq<seq<BamRecord>>, rest: seq<BamRecord>)
    requires |g| > 0
    requires forall j :: 0 <= j < |g| ==> g[j].qName == g[0].qName
    requires IsRunPartition(gs, rest)
    requires gs != [] ==> g[|g| - 1].qName != gs[0][0].qName
    ensures IsRunPartition([g] + gs, g + rest)
  {
    var hs := [g] + gs;
    assert hs[1..] == gs;
    assert forall k :: 1 <= k < |hs| ==> hs[k] == gs[k - 1];
    forall k | 0 <= k < |hs| - 1
      ensures NamesDifferAt(hs, k)
    {
      if k > 0 {
        assert NamesDifferAt(gs, k - 1);
      }
    }
  }

  /** The first record of a flattened list of groups is the first record of its first group. */
  lemma FlattenHead(gs: seq<seq<BamRecord>>)
    requires gs != [] && |gs[0]| > 0
    ensures |Flatten(gs)| > 0 && Flatten(gs)[0] == gs[0][0]
  {
    assert Flatten(gs) == gs[0] + Flatten(gs[1..]);
  }

  /** The leading run followed by a run partition of what follows it is a run partition of the whole. */
  lemma LeadRunCons(rs: seq<BamRecord>, n: nat, rest: seq<seq<BamRecord>>)
    requires |rs| > 0 && n == LeadRun(rs)
    requires IsRunPartition(rest, rs[n..])
    ensures IsRunPartition([rs[..n]] + rest, rs)
  {
    if rest != [] {
      FlattenHead(rest);
    }
    PartitionCons(rs[..n], rest, rs[n..]);
    SplitJoin(rs, n);
  }

  /** The groups of `rs`: its maximal runs of adjacent records sharing a name. */
  function Runs(rs: seq<BamRecord>): (gs: seq<seq<BamRecord>>)
    ensures IsRunPartition(gs, rs)
    decreases |rs|
  {
    if rs == [] then []
    else
      var n := LeadRun(rs);
      var rest := Runs(rs[n..]);
      LeadRunCons(rs, n, rest);
      [rs[..n]] + rest
  }

  /** The first group of a run partition is the leading run. */
  lemma PartitionHead(gs: seq<seq<BamRecord>>, rs: seq<BamRecord>)
    requires IsRunPartition(gs, rs) && rs != []
    ensures gs != [] && |gs[0]| == LeadRun(rs) && gs[0] == rs[..|gs[0]|]
  {
    assert gs != [];
    var g := gs[0];
    assert rs == g + Flatten(gs[1..]);
    assert forall j :: 0 <= j < |g| ==> rs[j] == g[j];
    if |gs| > 1 {
      assert Flatten(gs[1..]) == gs[1] + Flatten(gs[2..]);
      assert rs[|g|] == gs[1][0];
      assert NamesDifferAt(gs, 0);
    }
  }

  /** Dropping the first group of a run partition leaves a run partition of the rest. */
  lemma PartitionTail(gs: seq<seq<BamRecord>>, rs: seq<BamRecord>)
    requires IsRunPartition(gs, rs) && gs != []
    ensures |gs[0]| <= |rs| && IsRunPartition(gs[1..], rs[|gs[0]|..])
  {
    var tail := gs[1..];
    assert rs == gs[0] + Flatten(tail);
    assert Flatten(tail) == rs[|gs[0]|..];
    assert forall k :: 0 <= k < |tail| ==> tail[k] == gs[k + 1];
    forall k | 0 <= k < |tail| - 1
      ensures NamesDifferAt(tail, k)
    {
      assert NamesDifferAt(gs, k + 1);
    }
  }

  /** One step of the grouping: the leading run, then the groups of what follows it. */
  lemma RunsUnfold(rs: seq<BamRecord>, n: nat)
    requires rs != [] && n == LeadRun(rs)
    ensures Runs(rs) == [rs[..n]] + Runs(rs[n..])
  {
  }

  /** Every record of the stream lands in exactly one group, and the groups are the maximal runs. */
  lemma {:induction false} RunsUnique(gs: seq<seq<BamRecord>>, rs: seq<BamRecord>)
    requires IsRunPartition(gs, rs)
    ensures gs == Runs(rs)
    decreases |rs|
  {
    if rs != [] {
      PartitionHead(gs, rs);
      PartitionTail(gs, rs);
      var n := |gs[0]|;
      RunsUnique(gs[1..], rs[n..]);
      RunsUnfold(rs, n);
      HeadTail(gs);
    }
  }

  /** Every record of every group occurs in the flattened stream. */
  lemma {:induction false} FlattenContains(gs: seq<seq<BamRecord>>, k: nat, j: nat)
    requires k < |gs| && j < |gs[k]|
    ensures gs[k][j] in Flatten(gs)
  {
    if k > 0 {
      FlattenContains(gs[1..], k - 1, j);
    }
  }

  /** Every record is resolvable in the group it falls into. */
  lemma RunsResolvable(rs: seq<BamRecord>, table: seq<int>)
    requires Resolvable(rs, table)
    ensures forall k :: 0 <= k < |Runs(rs)| ==> |Runs(rs)[k]| > 0 && Resolvable(Runs(rs)[k], table)
  {
    var gs := Runs(rs);
    forall k | 0 <= k < |gs|
      ensures Resolvable(gs[k], table)
    {
      forall j | 0 <= j < |gs[k]|
        ensures Resolves(gs[k][j], table)
      {
        FlattenContains(gs, k, j);
      }
    }
  }
}
