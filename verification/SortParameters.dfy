/** The limits of a sort: compute_sort_params of tpie/sort_manager.h, in the 64-bit arithmetic of the source. */
module SortParameters {
  import opened Arithmetic
  import opened Options

  const WIDTH: nat := 0x1_0000_0000_0000_0000
  const HALF_WIDTH: nat := 0x8000_0000_0000_0000
  const SIZE_LIMIT: nat := 0x1000_0000_0000_0000

  // size_t subtraction wraps around.
  function Minus(a: nat, b: nat): nat
    requires b <= WIDTH
  {
    if b <= a then a - b else a + WIDTH - b
  }

  // A size_t as a signed offset.
  function Signed(x: nat): int {
    if x < HALF_WIDTH then x else x - WIDTH
  }

  datatype SortError =
    | NullPointer | NoMemoryForRuns | NoMemoryForMerge | ArityTooSmall | TooFewStreams
    | LessThanTwoRuns | ItemCountMismatch

  // Bytes of memory that are available, of an open stream, of an item, of a merge heap without items
  // and of one merged run beside its stream; and the number of streams that can be opened.
  datatype Resources = Resources(available: nat, perStream: nat, itemSize: nat,
    mergeOverhead: nat, perMergeItem: nat, streams: nat)

  // Sizes are far below the width of the machine, and a stream has room for an item.
  predicate Measured(res: Resources, n: nat) {
    && 1 <= res.itemSize <= res.perStream < SIZE_LIMIT && 1 <= res.perMergeItem < SIZE_LIMIT
    && res.available < SIZE_LIMIT && res.mergeOverhead < SIZE_LIMIT && n * res.itemSize < SIZE_LIMIT
  }

  function Quotient(a: nat, d: nat): nat
    requires d >= 1
  {
    a / d
  }

  function MaxItemCount(bytes: nat, itemSize: nat): nat
    requires itemSize >= 1
  {
    if bytes < itemSize then 0 else Quotient(bytes, itemSize)
  }

  // What is left for sorting in memory, beside the input and the output stream.
  function Spare(res: Resources): nat
    requires res.perStream < SIZE_LIMIT
  {
    Minus(res.available, 2 * res.perStream)
  }

  predicate FitsInMemory(res: Resources, n: nat)
    requires Measured(res, n)
  {
    n < Signed(MaxItemCount(Spare(res), res.itemSize))
  }

  function ItemsPerRun(res: Resources): nat
    requires 1 <= res.itemSize && res.perStream < SIZE_LIMIT
  {
    MaxItemCount(Minus(Spare(res), res.perStream), res.itemSize)
  }

  function InitialRuns(res: Resources, n: nat): nat
    requires 1 <= res.itemSize && res.perStream < SIZE_LIMIT && ItemsPerRun(res) >= 1
  {
    Quotient((n + ItemsPerRun(res) - 1) % WIDTH, ItemsPerRun(res))
  }

  function MergeFixed(res: Resources): nat {
    res.mergeOverhead + res.perStream
  }

  function MergeFits(res: Resources): nat
    requires res.perStream < SIZE_LIMIT && res.mergeOverhead < SIZE_LIMIT && res.perMergeItem >= 1
  {
    Quotient(Minus(Spare(res), MergeFixed(res)), res.perStream + res.perMergeItem)
  }

  /** Which check of an external sort fails, in the order of the checks. */
  function CheckResources(res: Resources, n: nat): Option<SortError>
    requires Measured(res, n)
  {
    if ItemsPerRun(res) < 1 then Some(NoMemoryForRuns)
    else if MergeFixed(res) > Spare(res) then Some(NoMemoryForMerge)
    else if MergeFits(res) < 2 then Some(ArityTooSmall)
    else if res.streams < 3 then Some(TooFewStreams)
    else if InitialRuns(res, n) <= 1 then Some(LessThanTwoRuns)
    else None
  }

  // With memory for the two streams, input that does not fit is cut into at least two runs.
  lemma EnoughMemory(res: Resources, n: nat)
    requires Measured(res, n) && !FitsInMemory(res, n) && 2 * res.perStream <= res.available
    requires ItemsPerRun(res) >= 1 && MergeFixed(res) <= Spare(res)
    ensures InitialRuns(res, n) == Ceil(n, ItemsPerRun(res)) >= 2
  {
    hide Quotient, Ceil;
    var a, s, l := Spare(res), res.itemSize, ItemsPerRun(res);
    QuotientAtMost(a, s);
    QuotientAtMost(a - res.perStream, s);
    FewerItems(a, res.perStream, s);
    MulMonotone(1, s, n);
    RunsRoundedUp(n, l);
    CeilBounds(n, l);
    if Ceil(n, l) < 2 {
      MulMonotone(Ceil(n, l), 1, l);
    }
  }

  lemma QuotientAtMost(x: nat, d: nat)
    requires d >= 1
    ensures Quotient(x, d) <= x && Quotient(x, d) * d <= x
  {
    MulMonotone(1, d, x / d);
  }

  // A stream less leaves room for at least one item less.
  lemma FewerItems(a: nat, b: nat, s: nat)
    requires 1 <= s <= b <= a
    ensures Quotient(a - b, s) + 1 <= Quotient(a, s)
  {
    var q := (a - b) / s;
    QuotientAtMost(a - b, s);
    MulNext(q, s);
    if a / s <= q {
      MulMonotone(a / s + 1, q + 1, s);
      Remainder(a, s);
      MulNext(a / s, s);
    }
  }

  lemma RunsRoundedUp(n: nat, l: nat)
    requires l >= 1 && n + l - 1 < WIDTH
    ensures Quotient((n + l - 1) % WIDTH, l) == Ceil(n, l)
  {
  }

  // Without it the spare memory wraps around: all input fits, unless its items are single bytes.
  lemma WrappedMemory(res: Resources, n: nat)
    requires Measured(res, n) && res.available < 2 * res.perStream
    ensures FitsInMemory(res, n) <==> res.itemSize >= 2
    ensures res.itemSize == 1 ==> ItemsPerRun(res) >= 1 && InitialRuns(res, n) <= 1
    ensures MergeFixed(res) <= Spare(res) && MergeFits(res) >= 2
  {
    var a, s := Spare(res), res.itemSize;
    if s >= 2 {
      var m := MaxItemCount(a, s);
      Remainder(a, s);
      if m <= n {
        MulMonotone(m, n, s);
        assert false;
      }
      MulMonotone(2, s, m);
    } else {
      var l, sum := ItemsPerRun(res), (n + ItemsPerRun(res) - 1) % WIDTH;
      assert l == a - res.perStream;
      if n + l - 1 < WIDTH {
        if n == 0 {
          DivUnique(sum, l, 0, sum);
        } else {
          DivUnique(sum, l, 1, n - 1);
        }
      } else {
        DivUnique(n + l - 1, WIDTH, 1, n + l - 1 - WIDTH);
        DivUnique(sum, l, 0, sum);
      }
    }
    var d := res.perStream + res.perMergeItem;
    var rest := a - MergeFixed(res);
    Remainder(rest, d);
    if rest / d < 2 {
      MulMonotone(rest / d, 1, d);
    }
  }

  /** The assertion of at least two runs fails exactly without memory for two streams, on single bytes. */
  lemma LessThanTwoRunsIff(res: Resources, n: nat)
    requires Measured(res, n)
    ensures !FitsInMemory(res, n) && CheckResources(res, n) == Some(LessThanTwoRuns)
       <==> res.available < 2 * res.perStream && res.itemSize == 1 && res.streams >= 3
  {
    if res.available < 2 * res.perStream {
      WrappedMemory(res, n);
    } else if !FitsInMemory(res, n) && ItemsPerRun(res) >= 1 && MergeFixed(res) <= Spare(res) {
      EnoughMemory(res, n);
    }
  }

  /** Two bytes to sort, and 1000 bytes of memory for two streams of 1000 bytes. */
  lemma OneRunOfBytes()
    ensures var res := Resources(1000, 1000, 1, 0, 16, 3);
            Measured(res, 2) && !FitsInMemory(res, 2) && CheckResources(res, 2) == Some(LessThanTwoRuns)
  {
    LessThanTwoRunsIff(Resources(1000, 1000, 1, 0, 16, 3), 2);
  }

  lemma RunsHoldInput(n: nat, l: nat)
    requires l >= 1 && Ceil(n, l) >= 2
    ensures Ceil(n, l) * l - n < l && n - (Ceil(n, l) - 1) * l <= l
  {
    if n == 0 {
      DivUnique(l - 1, l, 0, l - 1);
    }
    CeilBounds(n, l);
    MulNext(Ceil(n, l) - 1, l);
  }

  /** An external sort that passes the checks has at least two runs of at least one item, and just enough of them. */
  lemma ChecksPass(res: Resources, n: nat)
    requires Measured(res, n) && !FitsInMemory(res, n) && CheckResources(res, n).None?
    ensures InitialRuns(res, n) == Ceil(n, ItemsPerRun(res)) >= 2 && ItemsPerRun(res) >= 1
    ensures InitialRuns(res, n) * ItemsPerRun(res) - n < ItemsPerRun(res)
    ensures n - (InitialRuns(res, n) - 1) * ItemsPerRun(res) <= ItemsPerRun(res)
  {
    if res.available < 2 * res.perStream {
      WrappedMemory(res, n);
    } else {
      EnoughMemory(res, n);
      RunsHoldInput(n, ItemsPerRun(res));
    }
  }

  // ---------- The limits in bytes

  lemma QuotientIs(x: nat, d: nat)
    requires d >= 1
    ensures Quotient(x, d) * d <= x < Quotient(x, d) * d + d
  {
    Remainder(x, d);
  }

  lemma ItemsThatFit(bytes: nat, itemSize: nat, n: nat)
    requires itemSize >= 1
    ensures n < MaxItemCount(bytes, itemSize) <==> (n + 1) * itemSize <= bytes
    ensures MaxItemCount(bytes, itemSize) <= bytes
  {
    var q := Quotient(bytes, itemSize);
    QuotientAtMost(bytes, itemSize);
    QuotientIs(bytes, itemSize);
    MulNext(q, itemSize);
    if n < q {
      MulMonotone(n + 1, q, itemSize);
    } else {
      MulMonotone(q + 1, n + 1, itemSize);
    }
    MulMonotone(1, n + 1, itemSize);
  }

  /** Input is sorted in memory exactly if one item more would fit beside two streams, or the memory wraps around. */
  lemma FitsIff(res: Resources, n: nat)
    requires Measured(res, n)
    ensures FitsInMemory(res, n) <==>
      if res.available < 2 * res.perStream then res.itemSize >= 2
      else (n + 1) * res.itemSize + 2 * res.perStream <= res.available
  {
    if res.available < 2 * res.perStream {
      WrappedMemory(res, n);
    } else {
      ItemsThatFit(Spare(res), res.itemSize, n);
    }
  }

  /** Every error of an external sort, by the bytes that are available. */
  lemma ErrorsInBytes(res: Resources, n: nat)
    requires Measured(res, n) && !FitsInMemory(res, n)
    ensures var error, a, b := CheckResources(res, n), res.available, res.perStream;
            var forRuns, forMerge := 3 * b + res.itemSize, 3 * b + res.mergeOverhead;
            var forTwo := forMerge + 2 * (b + res.perMergeItem);
            && (error == Some(NoMemoryForRuns) <==> 3 * b <= a < forRuns)
            && (error == Some(NoMemoryForMerge) <==> 2 * b <= a < 3 * b || forRuns <= a < forMerge)
            && (error == Some(ArityTooSmall) <==> forRuns <= a && forMerge <= a < forTwo)
            && (error == Some(TooFewStreams) <==> res.streams < 3 && (a < 2 * b || (forRuns <= a && forTwo <= a)))
            && (error == Some(LessThanTwoRuns) <==> res.streams >= 3 && a < 2 * b)
            && (error == None <==> res.streams >= 3 && forRuns <= a && forTwo <= a)
  {
    hide Quotient;
    LessThanTwoRunsIff(res, n);
    FitsIff(res, n);
    if res.available < 2 * res.perStream {
      WrappedMemory(res, n);
    } else {
      ItemsThatFit(Minus(Spare(res), res.perStream), res.itemSize, 0);
      var rest, d := Minus(Spare(res), MergeFixed(res)), res.perStream + res.perMergeItem;
      QuotientIs(rest, d);
      TwoOrMore(rest, d);
      if ItemsPerRun(res) >= 1 && MergeFixed(res) <= Spare(res) {
        EnoughMemory(res, n);
      }
    }
  }

  lemma TwoOrMore(x: nat, d: nat)
    requires d >= 1
    ensures Quotient(x, d) >= 2 <==> x >= 2 * d
  {
    QuotientIs(x, d);
    if Quotient(x, d) >= 2 {
      MulMonotone(2, Quotient(x, d), d);
    } else {
      MulMonotone(Quotient(x, d), 1, d);
    }
  }

  /** A run is as long as the memory beside three streams allows, and there are as few runs as hold the input. */
  lemma RunsInBytes(res: Resources, n: nat)
    requires Measured(res, n) && !FitsInMemory(res, n) && CheckResources(res, n).None?
    ensures var l, runs := ItemsPerRun(res), InitialRuns(res, n);
            && 3 * res.perStream + l * res.itemSize <= res.available < 3 * res.perStream + (l + 1) * res.itemSize
            && (runs - 1) * l < n <= runs * l
  {
    hide Quotient;
    ErrorsInBytes(res, n);
    var l := ItemsPerRun(res);
    ItemsThatFit(res.available - 3 * res.perStream, res.itemSize, l);
    ItemsThatFit(res.available - 3 * res.perStream, res.itemSize, l - 1);
    ChecksPass(res, n);
    MulNext(InitialRuns(res, n) - 1, l);
  }

  /** A merge of at most MergeFits runs keeps within the memory, and one of more does not. */
  lemma ArityInBytes(res: Resources, n: nat, arity: nat)
    requires Measured(res, n) && !FitsInMemory(res, n) && CheckResources(res, n).None?
    ensures arity <= MergeFits(res) <==>
      arity * (res.perStream + res.perMergeItem) + res.mergeOverhead + 3 * res.perStream <= res.available
  {
    hide Quotient;
    ErrorsInBytes(res, n);
    var fits, d := MergeFits(res), res.perStream + res.perMergeItem;
    QuotientIs(res.available - 3 * res.perStream - res.mergeOverhead, d);
    if arity <= fits {
      MulMonotone(arity, fits, d);
    } else {
      MulNext(fits, d);
      MulMonotone(fits + 1, arity, d);
    }
  }
}
