/** Files and memory for the phases of a serialization sort: calculate_parameters and merge_runs. */
module PhaseParameters {
  import opened Options
  import opened Arithmetic
  import opened FileHandlers
  import opened SortParameters

  const DEFAULT_FILES: nat := 253
  const MINIMUM_FILES: nat := 3  // in the second and the third phase

  // The files (0 for the default) and the bytes of memory for each phase, the size of the smallest
  // serialized item, the size of an item in memory, and the memory that one reader or writer takes.
  // The files of the first phase are left out: one is enough, and the default is one.
  datatype Limits = Limits(files2: nat, files3: nat,
    memory1: nat, memory2: nat, memory3: nat, minimumItemSize: nat, itemSize: nat, blockSize: nat)

  // Sizes are far below the width of the machine.
  type Parameters = p: Limits | Sized(p) witness Limits(0, 0, 0, 0, 0, 0, 1, 1)

  predicate Sized(p: Limits) {
    && 1 <= p.blockSize < SIZE_LIMIT && 1 <= p.itemSize < SIZE_LIMIT && p.minimumItemSize < SIZE_LIMIT
    && p.memory1 < SIZE_LIMIT && p.memory2 < SIZE_LIMIT && p.memory3 < SIZE_LIMIT
  }

  function FilesOf(files: nat): nat {
    if files == 0 then DEFAULT_FILES else files
  }

  /** Which check fails at the beginning of a sort; the memory of the third phase is never tested by itself. */
  function CheckPhases(p: Parameters): Option<Error> {
    if FilesOf(p.files2) < MINIMUM_FILES then Some(TooFewFiles(2))
    else if FilesOf(p.files3) < MINIMUM_FILES then Some(TooFewFiles(3))
    else if p.memory1 <= p.blockSize then Some(NoMemoryToFormRuns)
    else if p.memory2 <= p.blockSize then Some(NotEnoughMemory)
    else if AssumedFanout(p) < 2 then Some(NotEnoughMemory)
    else None
  }

  // The fanout if all items have the least size.
  function AssumedFanout(p: Parameters): int {
    Min(Quotient(Minus(Min(p.memory2, p.memory3), p.blockSize), p.minimumItemSize + p.blockSize), FilesOf(p.files2) - 1)
  }

  function Fanout(p: Parameters, largestItem: nat): int {
    Min(Quotient(Minus(p.memory2, p.blockSize), largestItem + p.blockSize), FilesOf(p.files2) - 1)
  }

  function FinalFanout(p: Parameters, largestItem: nat): int {
    Min(Min(FilesOf(p.files3) - 1, Fanout(p, largestItem)), Quotient(p.memory3, largestItem + p.blockSize))
  }

  // The number of items that the buffer of a run can hold.
  function BufferLength(p: Parameters): nat {
    Quotient(Quotient(Minus(p.memory1, p.blockSize), p.itemSize), 2)
  }

  predicate CanMerge(p: Parameters, largestItem: nat) {
    p.memory2 > p.blockSize && FinalFanout(p, largestItem) >= 2
  }

  predicate EnoughFiles(p: Parameters) {
    FilesOf(p.files2) >= MINIMUM_FILES && FilesOf(p.files3) >= MINIMUM_FILES
  }

  /** A sort begins exactly with this much memory, or else with less than a block for the third phase. */
  lemma BeginsIff(p: Parameters)
    ensures CheckPhases(p).None? <==>
      && EnoughFiles(p) && p.memory1 > p.blockSize && p.memory2 > p.blockSize
      && (p.memory3 < p.blockSize || Min(p.memory2, p.memory3) >= 3 * p.blockSize + 2 * p.minimumItemSize)
  {
    TwoOrMore(Minus(Min(p.memory2, p.memory3), p.blockSize), p.minimumItemSize + p.blockSize);
  }

  /** Merging needs two readers in either phase, with room for an item each, and a writer in the second. */
  lemma CanMergeIff(p: Parameters, largestItem: nat)
    requires EnoughFiles(p)
    ensures CanMerge(p, largestItem) <==>
      p.memory2 >= 3 * p.blockSize + 2 * largestItem && p.memory3 >= 2 * p.blockSize + 2 * largestItem
  {
    if p.memory2 > p.blockSize {
      TwoOrMore(p.memory2 - p.blockSize, largestItem + p.blockSize);
      TwoOrMore(p.memory3, largestItem + p.blockSize);
    }
  }

  /** A sort that begins can merge items of the least size if and only if the third phase has memory for a block. */
  lemma BegunCanMergeIff(p: Parameters)
    requires CheckPhases(p).None?
    ensures CanMerge(p, p.minimumItemSize) <==> p.memory3 >= p.blockSize
  {
    BeginsIff(p);
    CanMergeIff(p, p.minimumItemSize);
  }

  /** No memory at all for the third phase goes unnoticed until merging. */
  lemma NoThirdPhase()
    ensures var p := Limits(3, 3, 100, 100, 0, 4, 4, 10);
            CheckPhases(p).None? && forall n: nat :: !CanMerge(p, n)
  {
    var p: Parameters := Limits(3, 3, 100, 100, 0, 4, 4, 10);
    BeginsIff(p);
    forall n: nat ensures !CanMerge(p, n) {
      CanMergeIff(p, n);
    }
  }

  // minimum_memory_phase_1, _2 and _3
  function MinimumMemory(blockSize: nat): (nat, nat, nat) {
    (2 * blockSize, 3 * blockSize, 2 * blockSize)
  }

  /** The minimum of the third phase is never enough to begin, and that of the second only for items of no bytes. */
  lemma MinimaIff(p: Parameters)
    requires EnoughFiles(p)
    ensures p.memory3 == MinimumMemory(p.blockSize).2 ==> CheckPhases(p).Some?
    ensures p.memory1 >= MinimumMemory(p.blockSize).0 && p.memory2 == MinimumMemory(p.blockSize).1 <= p.memory3 ==>
      (CheckPhases(p).None? <==> p.minimumItemSize == 0)
  {
    BeginsIff(p);
  }

  /** With all three minima, blocks of ten bytes and items of four, a sort cannot begin. */
  lemma MinimaDoNotSuffice()
    ensures CheckPhases(Limits(3, 3, 20, 30, 20, 4, 4, 10)) == Some(NotEnoughMemory)
  {
    MinimaIff(Limits(3, 3, 20, 30, 20, 4, 4, 10));
  }

  /** The fanouts of a merge that is possible; the final one is no larger and both keep within the files. */
  lemma FanoutsWithinFiles(p: Parameters, largestItem: nat)
    requires CanMerge(p, largestItem)
    ensures 2 <= FinalFanout(p, largestItem) <= Fanout(p, largestItem)
    ensures Fanout(p, largestItem) + 1 <= FilesOf(p.files2) && FinalFanout(p, largestItem) + 1 <= FilesOf(p.files3)
  {
  }

  /** Which error a sort begins with, by the files and the bytes of each phase. */
  lemma PhaseErrors(p: Parameters)
    ensures var error, b := CheckPhases(p), p.blockSize;
            var files2, files3 := !(1 <= p.files2 < 3), !(1 <= p.files3 < 3);
            && (error == Some(TooFewFiles(2)) <==> !files2)
            && (error == Some(TooFewFiles(3)) <==> files2 && !files3)
            && (error == Some(NoMemoryToFormRuns) <==> files2 && files3 && p.memory1 <= b)
            && (error == Some(NotEnoughMemory) <==>
              && files2 && files3 && p.memory1 > b
              && (p.memory2 <= b || (p.memory3 >= b && Min(p.memory2, p.memory3) < 3 * b + 2 * p.minimumItemSize)))
  {
    BeginsIff(p);
  }

  // k parts of size d fit into x, and no more.
  lemma Fitting(x: nat, d: nat, k: nat)
    requires d >= 1
    ensures k <= Quotient(x, d) <==> k * d <= x
  {
    QuotientIs(x, d);
    if k <= Quotient(x, d) {
      MulMonotone(k, Quotient(x, d), d);
    } else {
      MulNext(Quotient(x, d), d);
      MulMonotone(Quotient(x, d) + 1, k, d);
    }
  }

  /** The fanout is the largest one for which the readers, an item of each and the writer fit in memory and files. */
  lemma FanoutInBytes(p: Parameters, largestItem: nat)
    requires CanMerge(p, largestItem)
    ensures var k, reader := Fanout(p, largestItem), largestItem + p.blockSize;
            var files := if p.files2 == 0 then 253 else p.files2;
            && 2 <= k < files && k * reader + p.blockSize <= p.memory2
            && (k + 1 == files || p.memory2 < (k + 1) * reader + p.blockSize)
  {
    hide Quotient;
    var k, reader := Fanout(p, largestItem), largestItem + p.blockSize;
    Fitting(p.memory2 - p.blockSize, reader, k);
    Fitting(p.memory2 - p.blockSize, reader, k + 1);
  }

  /** The same of the final fanout, without a writer, and with the files and the memory of the third phase. */
  lemma FinalFanoutInBytes(p: Parameters, largestItem: nat)
    requires CanMerge(p, largestItem)
    ensures var k, reader := FinalFanout(p, largestItem), largestItem + p.blockSize;
            var files := if p.files3 == 0 then 253 else p.files3;
            && 2 <= k < files && k <= Fanout(p, largestItem) && k * reader <= p.memory3
            && (k + 1 == files || k == Fanout(p, largestItem) || p.memory3 < (k + 1) * reader)
  {
    hide Quotient;
    var k, reader := FinalFanout(p, largestItem), largestItem + p.blockSize;
    Fitting(p.memory3, reader, k);
    Fitting(p.memory3, reader, k + 1);
  }

  /** The buffer takes half of the memory that a writer leaves of the first phase, and no whole item less. */
  lemma BufferInBytes(p: Parameters)
    requires p.memory1 > p.blockSize
    ensures var length := BufferLength(p);
            && 2 * length * p.itemSize + p.blockSize <= p.memory1
            && p.memory1 < 2 * (length + 1) * p.itemSize + p.blockSize
  {
    hide Quotient;
    var x, s := p.memory1 - p.blockSize, p.itemSize;
    var q := Quotient(x, s);
    QuotientIs(x, s);
    QuotientIs(q, 2);
    MulMonotone(2 * BufferLength(p), q, s);
    MulMonotone(q + 1, 2 * (BufferLength(p) + 1), s);
    MulNext(q, s);
  }
}
