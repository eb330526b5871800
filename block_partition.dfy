/**
  The distribution and reduction phases of enade_ficticio.c: rank 0 cuts the
  unified base into one contiguous block per rank (ranks 1 .. n-1 in order
  from the start, rank 0 the last block), every rank analyses its block, and
  `MPI_Reduce` with `MPI_SUM` adds the rank results on rank 0.  The program
  insists on exactly four processes; the model takes any `n > 0`.
 */
module BlockPartition {
  import opened Wrappers
  import opened StudentAnalysis
  import opened Unification
  import opened RecordLayout

  /** `bloco_base + (i < resto ? 1 : 0)`: the size of rank `i`'s block. */
  function BlockSize(total: nat, n: nat, i: nat): nat
    requires n > 0
  {
    total / n + (if i < total % n then 1 else 0)
  }

  /** `pos_atual` when rank `i` (1 <= i <= n) is reached: the sizes of ranks 1 .. i-1 added up. */
  function SendStart(total: nat, n: nat, i: nat): nat
    requires n > 0 && 1 <= i
  {
    if i == 1 then 0 else SendStart(total, n, i - 1) + BlockSize(total, n, i - 1)
  }

  /** Where rank `i`'s block starts: ranks 1 .. n-1 in order from 0, rank 0 where the loop left `pos_atual`. */
  function BlockStart(total: nat, n: nat, i: nat): nat
    requires n > 0 && i < n
  {
    if i == 0 then SendStart(total, n, n) else SendStart(total, n, i)
  }

  /** No two blocks differ in size by more than one, and a rank below `resto` never has the smaller one. */
  lemma SizesBalanced(total: nat, n: nat, i: nat, j: nat)
    requires n > 0 && i < n && j < n
    ensures total / n <= BlockSize(total, n, i) <= total / n + 1
    ensures BlockSize(total, n, i) <= BlockSize(total, n, j) + 1
    ensures i <= j ==> BlockSize(total, n, i) >= BlockSize(total, n, j)
  {
  }

  /**
    After the first `i` sends plus rank 0's block, `i * base + min(i, resto)`
    students are taken: a block of `base + 1` for each rank below `resto`.
   */
  lemma {:induction false} SendStartClosedForm(total: nat, n: nat, i: nat)
    requires n > 0 && 1 <= i <= n
    ensures SendStart(total, n, i) + BlockSize(total, n, 0) ==
      i * (total / n) + (if i < total % n then i else total % n)
  {
    if i > 1 {
      SendStartClosedForm(total, n, i - 1);
      assert (i - 1) * (total / n) + total / n == i * (total / n);
    }
  }

  /** The blocks cover the base exactly: rank 0's block ends at `tamanho_base_dados`. */
  lemma SizesSum(total: nat, n: nat)
    requires n > 0
    ensures SendStart(total, n, n) + BlockSize(total, n, 0) == total
  {
    SendStartClosedForm(total, n, n);
  }

  /**
    The blocks lie one after another without gap or overlap: rank 1 starts at
    0, rank `i + 1` where rank `i` ends, rank 0 where rank `n - 1` ends, and no
    block passes the end of the base.
   */
  lemma BlocksContiguous(total: nat, n: nat, i: nat)
    requires n > 0 && 1 <= i < n
    ensures BlockStart(total, n, 1) == 0
    ensures (if i + 1 < n then BlockStart(total, n, i + 1) else BlockStart(total, n, 0)) ==
      BlockStart(total, n, i) + BlockSize(total, n, i)
    ensures BlockStart(total, n, i) + BlockSize(total, n, i) <= total
    ensures BlockStart(total, n, 0) + BlockSize(total, n, 0) == total
  {
    SendBound(total, n, i + 1);
    SizesSum(total, n);
  }

  /** `pos_atual` never passes the end of the base. */
  lemma SendBound(total: nat, n: nat, i: nat)
    requires n > 0 && 1 <= i <= n
    ensures SendStart(total, n, i) <= total
  {
    SendStartClosedForm(total, n, i);
    SizesSum(total, n);
    SendStartClosedForm(total, n, n);
    MulMonotone(i, n, total / n);
  }

  /** Arithmetic step for `SendBound`: multiplying by the same factor keeps `<=`. */
  lemma MulMonotone(a: nat, b: nat, c: nat)
    requires a <= b
    ensures a * c <= b * c
  {
    assert b * c == a * c + (b - a) * c;
  }

  /** The students of a sequence of blocks, block after block. */
  function Flatten(blocks: seq<seq<Answers>>): seq<Answers> {
    if blocks == [] then [] else Flatten(blocks[..|blocks| - 1]) + blocks[|blocks| - 1]
  }

  /** Rank `i`'s block lies inside the base. */
  lemma BlockFits(total: nat, n: nat, i: nat)
    requires n > 0 && i < n
    ensures BlockStart(total, n, i) + BlockSize(total, n, i) <= total
  {
    if i == 0 {
      SizesSum(total, n);
    } else {
      SendBound(total, n, i + 1);
      if i + 1 == n {
        SizesSum(total, n);
      }
    }
  }

  /** The answers of rank `i`'s slice of the base. */
  function Slice(base: seq<Record>, n: nat, i: nat): seq<Answers>
    requires n > 0 && i < n
  {
    BlockFits(|base|, n, i);
    var start := BlockStart(|base|, n, i);
    AnswersOf(base[start..start + BlockSize(|base|, n, i)])
  }

  /** The blocks sent to ranks 1 .. i-1. */
  function SentBlocks(base: seq<Record>, n: nat, i: nat): seq<seq<Answers>>
    requires n > 0 && 1 <= i <= n
  {
    if i == 1 then [] else SentBlocks(base, n, i - 1) + [Slice(base, n, i - 1)]
  }

  /** The block of every rank, indexed by rank. */
  function Partition(base: seq<Record>, n: nat): seq<seq<Answers>>
    requires n > 0
  {
    [Slice(base, n, 0)] + SentBlocks(base, n, n)
  }

  lemma {:induction false} SentBlocksAt(base: seq<Record>, n: nat, i: nat)
    requires n > 0 && 1 <= i <= n
    ensures |SentBlocks(base, n, i)| == i - 1
    ensures forall k :: 1 <= k < i ==> SentBlocks(base, n, i)[k - 1] == Slice(base, n, k)
  {
    if i > 1 {
      SentBlocksAt(base, n, i - 1);
    }
  }

  /** Rank `i` gets the answers of records `BlockStart .. BlockStart + BlockSize - 1`, and nothing else. */
  lemma PartitionShape(base: seq<Record>, n: nat)
    requires n > 0
    ensures |Partition(base, n)| == n
    ensures forall i :: 0 <= i < n ==>
      BlockStart(|base|, n, i) + BlockSize(|base|, n, i) <= |base| &&
      Partition(base, n)[i] == AnswersOf(base[BlockStart(|base|, n, i)..BlockStart(|base|, n, i) + BlockSize(|base|, n, i)])
  {
    SentBlocksAt(base, n, n);
    forall i | 0 <= i < n
      ensures BlockStart(|base|, n, i) + BlockSize(|base|, n, i) <= |base|
      ensures Partition(base, n)[i] == Slice(base, n, i)
    {
      BlockFits(|base|, n, i);
      if i > 0 {
        assert Partition(base, n)[i] == SentBlocks(base, n, n)[i - 1];
      }
    }
  }

  lemma {:induction false} SentBlocksCover(base: seq<Record>, n: nat, i: nat)
    requires n > 0 && 1 <= i <= n
    ensures SendStart(|base|, n, i) <= |base|
    ensures Flatten(SentBlocks(base, n, i)) == AnswersOf(base[..SendStart(|base|, n, i)])
  {
    SendBound(|base|, n, i);
    if i > 1 {
      SentBlocksCover(base, n, i - 1);
      var s, e := SendStart(|base|, n, i - 1), SendStart(|base|, n, i);
      var init := SentBlocks(base, n, i - 1);
      assert SentBlocks(base, n, i) == init + [Slice(base, n, i - 1)];
      assert (init + [Slice(base, n, i - 1)])[..|init|] == init;
      assert Slice(base, n, i - 1) == AnswersOf(base[s..e]);
      AnswersOfSlices(base, s, e);
    }
  }

  /**
    Read in the order the loop sends them, ranks 1 .. n-1 and then rank 0,
    the blocks are the whole base, with no gap and no overlap.
   */
  lemma PartitionCovers(base: seq<Record>, n: nat)
    requires n > 0
    ensures Flatten(Partition(base, n)[1..]) + Partition(base, n)[0] == AnswersOf(base)
  {
    SentBlocksCover(base, n, n);
    SizesSum(|base|, n);
    var s := SendStart(|base|, n, n);
    assert Partition(base, n)[1..] == SentBlocks(base, n, n);
    assert Partition(base, n)[0] == AnswersOf(base[s..|base|]);
    AnswersOfSlices(base, s, |base|);
    assert base[..|base|] == base;
  }

  /**
    The loop at lines 169-174 and the copy at lines 175-177: the blocks of
    ranks 1 .. n-1 and then rank 0's, each packed from the records so that
    every worker gets the answers of its own slice of the base.
   */
  method Distribute(base: seq<Record>, n: nat) returns (blocks: seq<seq<Answers>>)
    requires n > 0
    ensures blocks == Partition(base, n)
  {
    var sent, pos := SendBlocks(base, n);
    var own := |base| / n + (if 0 < |base| % n then 1 else 0);
    SliceAt(base, n, 0, pos, own);
    var mine := PackBlock(base, pos, own);
    blocks := [mine] + sent;
  }

  /** The loop at lines 169-174: ranks 1 .. n-1 in turn, `pos_atual` advancing past each block. */
  method SendBlocks(base: seq<Record>, n: nat) returns (sent: seq<seq<Answers>>, pos: nat)
    requires n > 0
    ensures sent == SentBlocks(base, n, n)
    ensures pos == SendStart(|base|, n, n)
  {
    pos := 0;
    sent := [];
    var i := 1;
    while i < n
      invariant 1 <= i <= n
      invariant pos == SendStart(|base|, n, i)
      invariant sent == SentBlocks(base, n, i)
    {
      var size := BlockSize(|base|, n, i);
      SendStep(base, n, i);
      var block := PackBlock(base, pos, size);
      sent := sent + [block];
      pos := pos + size;
      i := i + 1;
    }
  }

  /** One turn of the send loop: rank `i`'s block fits, is the slice at `pos_atual`, and moves `pos_atual` past it. */
  lemma SendStep(base: seq<Record>, n: nat, i: nat)
    requires n > 0 && 1 <= i < n
    ensures SendStart(|base|, n, i) + BlockSize(|base|, n, i) <= |base|
    ensures SendStart(|base|, n, i + 1) == SendStart(|base|, n, i) + BlockSize(|base|, n, i)
    ensures SentBlocks(base, n, i + 1) == SentBlocks(base, n, i) +
      [AnswersOf(base[SendStart(|base|, n, i)..SendStart(|base|, n, i) + BlockSize(|base|, n, i)])]
  {
    BlockFits(|base|, n, i);
  }

  /** The slice the loop packs for rank `i` from `pos_atual` is rank `i`'s block. */
  lemma SliceAt(base: seq<Record>, n: nat, i: nat, pos: nat, size: nat)
    requires n > 0 && i < n
    requires pos == (if i == 0 then SendStart(|base|, n, n) else SendStart(|base|, n, i))
    requires size == |base| / n + (if i < |base| % n then 1 else 0)
    ensures pos + size <= |base|
    ensures Slice(base, n, i) == AnswersOf(base[pos..pos + size])
  {
    BlockFits(|base|, n, i);
  }

  /** `MPI_Reduce(..., MPI_SUM, 0, ...)` over the rank results, rank 0 first. */
  function ReduceBlocks(blocks: seq<seq<Answers>>): Analysis {
    if blocks == [] then Zero()
    else Add(ReduceBlocks(blocks[..|blocks| - 1]), AnalyzeAll(Zero(), blocks[|blocks| - 1]))
  }

  /** Summing the analyses of the blocks is analysing all their students in one pass. */
  lemma {:induction false} ReduceIsOnePass(blocks: seq<seq<Answers>>)
    ensures ReduceBlocks(blocks) == AnalyzeAll(Zero(), Flatten(blocks))
  {
    if blocks != [] {
      var init, last := blocks[..|blocks| - 1], blocks[|blocks| - 1];
      ReduceIsOnePass(init);
      AnalyzeAllSplit(Flatten(init), last);
    }
  }

  /** The order in which the students are analysed and added up does not change the sums. */
  lemma AnalyzeAllSwap(x: seq<Answers>, y: seq<Answers>)
    ensures AnalyzeAll(Zero(), x + y) == AnalyzeAll(Zero(), y + x)
  {
    AnalyzeAllSplit(x, y);
    AnalyzeAllSplit(y, x);
    AddCommutative(AnalyzeAll(Zero(), x), AnalyzeAll(Zero(), y));
  }

  /**
    The partition plus the reduction: whatever the number of ranks, the
    reduced result is the analysis of every unified student in one pass.
   */
  lemma PartitionReduction(base: seq<Record>, blocks: seq<seq<Answers>>)
    requires |blocks| > 0 && Flatten(blocks[1..]) + blocks[0] == AnswersOf(base)
    ensures ReduceBlocks(blocks) == AnalyzeAll(Zero(), AnswersOf(base))
  {
    FlattenCons(blocks);
    ReduceIsOnePass(blocks);
    AnalyzeAllSwap(blocks[0], Flatten(blocks[1..]));
  }

  /** `Flatten` taken from the front. */
  lemma {:induction false} FlattenCons(blocks: seq<seq<Answers>>)
    requires |blocks| > 0
    ensures Flatten(blocks) == blocks[0] + Flatten(blocks[1..])
  {
    if |blocks| > 1 {
      var init := blocks[..|blocks| - 1];
      FlattenCons(init);
      assert init[1..] == blocks[1..][..|blocks[1..]| - 1];
    } else {
      assert blocks[1..] == [];
    }
  }

  /** One more rank's result added to the partial reduction. */
  lemma ReduceBlocksStep(blocks: seq<seq<Answers>>, rank: nat)
    requires rank < |blocks|
    ensures ReduceBlocks(blocks[..rank + 1]) == Add(ReduceBlocks(blocks[..rank]), AnalyzeAll(Zero(), blocks[rank]))
  {
    assert blocks[..rank + 1][..rank] == blocks[..rank];
  }

  /** Every rank runs the analysis loop on its block; `MPI_Reduce` sums the results. */
  method AnalyzeAndReduce(blocks: seq<seq<Answers>>) returns (global: Analysis)
    ensures global == ReduceBlocks(blocks)
  {
    global := Zero();
    var rank := 0;
    while rank < |blocks|
      invariant 0 <= rank <= |blocks|
      invariant global == ReduceBlocks(blocks[..rank])
    {
      var local := AnalyzeBlock(blocks[rank]);
      ReduceBlocksStep(blocks, rank);
      global := Add(global, local);
      rank := rank + 1;
    }
    assert blocks[..rank] == blocks;
  }

  /**
    The whole of enade_ficticio.c without its I/O: unify the seven question
    files, distribute the base over `n` ranks, analyse and reduce.  The result
    is the analysis of every unified student's dossier, each counted once, and
    its counters keep their nesting.
   */
  method Run(files: seq<Option<seq<ParsedLine>>>, n: nat) returns (global: Analysis)
    requires |files| == QUESTION_FILES && n > 0
    ensures global == AnalyzeAll(Zero(), AnswersOf(UnifyAll(files)))
    ensures global.totalStudents == |UnifyAll(files)|
    ensures Nested(global)
  {
    var base := Unify(files);
    var blocks := Distribute(base, n);
    global := AnalyzeAndReduce(blocks);
    PartitionCovers(base, n);
    PartitionReduction(base, blocks);
    AnalyzeAllCounts(AnswersOf(base));
  }
}
