/** Run files of the serialization sorter: file_handler of tpie/serialization_sorter.h. */
module FileHandlers {
  import opened Order
  import opened Bytes
  import opened Serialization
  import opened RunFiles

  datatype Error =
    | WriterAlreadyOpen | NoWriterOpen | ReadersAlreadyOpen | NoReadersOpen | NoFanout
    | WriterOpenAtNextLevel | FanoutOutOfBounds | IndexOutOfBounds | NotOneRun
    | TooFewFiles(phase: nat) | NoMemoryToFormRuns
    | EndOfStream | BadState | DoesNotFit | NotEnoughMemory | RunsRemain | CannotPull | NoRuns

  datatype Outcome = Ok | Raised(error: Error)

  function Max(x: nat, y: nat): nat {
    if x < y then y else x
  }

  /**
   * The run files fileOffset.. nextFileOffset. The level being merged ends at
   * nextLevelFileOffset, where the level merged into begins. A file is its bytes, and a reader the bytes it has left.
   */
  class FileHandler {
    const codec: Codec
    var fileOffset: nat
    var nextLevelFileOffset: nat
    var nextFileOffset: nat
    var writerOpen: bool
    var readersOpen: nat
    var readers: seq<seq<Byte>>
    var disk: map<nat, seq<Byte>>
    ghost var runs: seq<seq<Item>>
    ghost var peak: nat  // the most files that were ever open at once

    ghost predicate OnDisk()
      reads this`fileOffset, this`nextLevelFileOffset, this`nextFileOffset, this`disk, this`runs
    {
      && fileOffset <= nextLevelFileOffset <= nextFileOffset && |runs| == nextFileOffset - fileOffset
      && Holds(codec, disk, fileOffset, runs)
    }

    ghost predicate Reading()
      reads this`readersOpen, this`readers, this`runs
    {
      && readersOpen <= |readers| && readersOpen <= |runs|
      && KeepsRuns(codec, runs)
      && forall i :: 0 <= i < readersOpen ==> ReadsFrom(codec, readers[i], runs[i])
    }

    // Every live run file holds one of runs, in order; open readers read the first ones.
    ghost predicate Valid()
      reads this
    {
      && OnDisk() && Reading()
      && readersOpen <= nextLevelFileOffset - fileOffset
      && (writerOpen ==> nextLevelFileOffset < nextFileOffset)
      && OpenFiles() <= peak
    }

    function OpenFiles(): nat
      reads this`readersOpen, this`writerOpen
    {
      readersOpen + if writerOpen then 1 else 0
    }

    constructor (codec: Codec)
      ensures Valid() && runs == [] && !writerOpen && readersOpen == 0 && peak == 0
      ensures nextFileOffset == 0 && this.codec == codec
    {
      this.codec := codec;
      fileOffset, nextLevelFileOffset, nextFileOffset := 0, 0, 0;
      writerOpen, readersOpen, readers, disk, runs := false, 0, [], map[], [];
      peak := 0;
    }

    function RemainingRuns(): int
      reads this
    {
      nextLevelFileOffset - fileOffset
    }

    function NextLevelRuns(): int
      reads this
    {
      nextFileOffset - nextLevelFileOffset
    }

    // (x, y) becomes (x, y + 1).
    method OpenNewWriter() returns (r: Outcome)
      requires Valid()
      modifies this`nextFileOffset, this`disk, this`writerOpen, this`runs, this`peak
      ensures Valid()
      ensures r.Raised? <==> old(writerOpen)
      ensures r.Raised? ==> r.error == WriterAlreadyOpen && unchanged(this)
      ensures r.Ok? ==> writerOpen && runs == old(runs) + [[]] && NextLevelRuns() == old(NextLevelRuns()) + 1
      ensures r.Ok? ==> peak == Max(old(peak), readersOpen + 1)
    {
      hide Holds, KeepsRuns, ReadsFrom;
      if writerOpen {
        return Raised(WriterAlreadyOpen);
      }
      KeepsEmpty(codec, runs);
      HoldsNew(codec, disk, fileOffset, runs);
      disk := disk[nextFileOffset := []];
      nextFileOffset := nextFileOffset + 1;
      writerOpen := true;
      runs := runs + [[]];
      peak := Max(peak, OpenFiles());
      r := Ok;
    }

    method Write(v: Item) returns (r: Outcome)
      requires Valid() && Keeps(codec, v)
      modifies this`disk, this`runs
      ensures Valid()
      ensures r.Raised? <==> !writerOpen
      ensures r.Raised? ==> r.error == NoWriterOpen && unchanged(this)
      ensures r.Ok? ==> |runs| >= 1 && runs == old(runs)[|old(runs)| - 1 := old(runs)[|old(runs)| - 1] + [v]]
    {
      hide Holds, KeepsRuns, ReadsFrom, Encode;
      if !writerOpen {
        return Raised(NoWriterOpen);
      }
      var last := nextFileOffset - 1;
      HoldsWritten(codec, disk, fileOffset, runs, v);
      KeepsWritten(codec, runs, |runs| - 1, v);
      disk := disk[last := disk[last] + Encode(codec, v)];
      runs := runs[|runs| - 1 := runs[|runs| - 1] + [v]];
      r := Ok;
    }

    method CloseWriter() returns (r: Outcome)
      requires Valid()
      modifies this`writerOpen
      ensures Valid() && !writerOpen
      ensures r == if old(writerOpen) then Ok else Raised(NoWriterOpen)
    {
      if !writerOpen {
        return Raised(NoWriterOpen);
      }
      writerOpen := false;
      r := Ok;
    }

    predicate CanOpenReaders(fanout: nat)
      reads this
    {
      && readersOpen == 0 && fanout > 0
      && (RemainingRuns() == 0 ==> !writerOpen)
      && fanout <= if RemainingRuns() == 0 then NextLevelRuns() else RemainingRuns()
    }

    method OpenEach(fanout: nat)
      requires OnDisk() && fanout <= |runs|
      modifies this`readers
      ensures |readers| == Max(|old(readers)|, fanout) && forall k :: 0 <= k < fanout ==>
        readers[k] == RunBytes(codec, runs[k])
    {
      if |readers| < fanout {
        readers := readers + seq(fanout - |readers|, _ => []);
      }
      for i := 0 to fanout
        invariant |readers| == Max(|old(readers)|, fanout)
        invariant forall k :: 0 <= k < i ==> readers[k] == RunBytes(codec, runs[k])
      {
        HoldsAt(codec, disk, fileOffset, runs, i);
        readers := readers[i := disk[fileOffset + i]];
      }
    }

    // (x, y) stays, and (0, y) becomes (y, 0).
    method OpenReaders(fanout: nat) returns (r: Outcome)
      requires Valid()
      modifies this`nextLevelFileOffset, this`readers, this`readersOpen, this`peak
      ensures Valid()
      ensures r.Ok? <==> old(CanOpenReaders(fanout))
      ensures r.Ok? ==>
        && readersOpen == fanout && |readers| == Max(|old(readers)|, fanout)
        && (forall i :: 0 <= i < fanout ==> readers[i] == RunBytes(codec, runs[i]))
        && peak == Max(old(peak), fanout + if writerOpen then 1 else 0)
        && nextLevelFileOffset == if old(RemainingRuns()) == 0 then nextFileOffset else old(nextLevelFileOffset)
      ensures r.Raised? ==> readersOpen == old(readersOpen) && readers == old(readers)
    {
      hide Holds, KeepsRuns, ReadsFrom, RunBytes;
      if readersOpen != 0 {
        return Raised(ReadersAlreadyOpen);
      }
      if fanout == 0 {
        return Raised(NoFanout);
      }
      if RemainingRuns() == 0 {
        if writerOpen {
          return Raised(WriterOpenAtNextLevel);
        }
        nextLevelFileOffset := nextFileOffset;
      }
      if fanout > RemainingRuns() {
        return Raised(FanoutOutOfBounds);
      }
      OpenEach(fanout);
      hide OnDisk;
      forall i | 0 <= i < fanout ensures ReadsFrom(codec, readers[i], runs[i]) {
        ReadsFromStart(codec, runs[i]);
      }
      readersOpen := fanout;
      peak := Max(peak, OpenFiles());
      r := Ok;
    }

    // The bounds check lets idx == readersOpen pass, which has to be inside the array of readers.
    method CanRead(idx: nat) returns (r: Outcome, can: bool)
      requires 0 < readersOpen == idx ==> idx < |readers|
      requires readersOpen <= |readers|
      ensures r == if readersOpen == 0 then Raised(NoReadersOpen)
        else if readersOpen < idx then Raised(IndexOutOfBounds) else Ok
      ensures r.Ok? ==> (can <==> readers[idx] != [])
    {
      can := false;
      if readersOpen == 0 {
        return Raised(NoReadersOpen), can;
      }
      if readersOpen < idx {
        return Raised(IndexOutOfBounds), can;
      }
      return Ok, readers[idx] != [];
    }

    /** The next item of a reader; a reader whose bytes do not make an item raises, and has none left. */
    method Read(idx: nat) returns (r: Outcome, v: Item)
      requires Reading() && (0 < readersOpen == idx ==> idx < |readers|)
      modifies this`readers
      ensures Reading()
      ensures r == if readersOpen == 0 then Raised(NoReadersOpen)
        else if readersOpen < idx then Raised(IndexOutOfBounds)
        else if NextItem(codec, old(readers)[idx]).None? then Raised(EndOfStream) else Ok
      ensures r.Ok? ==>
        var next := NextItem(codec, old(readers)[idx]).value;
        v == next.0 && readers == old(readers)[idx := next.1]
      ensures r.Raised? ==> readers == if r.error == EndOfStream then old(readers)[idx := []] else old(readers)
    {
      hide NextItem, ReadsFrom, KeepsRuns;
      v := Item(0, 0);
      if readersOpen == 0 {
        return Raised(NoReadersOpen), v;
      }
      if readersOpen < idx {
        return Raised(IndexOutOfBounds), v;
      }
      if idx < readersOpen {
        StillReads(codec, readers[idx], runs[idx]);
      }
      var next := NextItem(codec, readers[idx]);
      if next.None? {
        readers := readers[idx := []];
        return Raised(EndOfStream), v;
      }
      readers := readers[idx := next.value.1];
      return Ok, next.value.0;
    }

    // (fanout + x, y) becomes (x, y).
    method CloseReadersAndDelete() returns (r: Outcome)
      requires Valid()
      modifies this`disk, this`fileOffset, this`readersOpen, this`runs
      ensures Valid() && readersOpen == 0
      ensures r == if old(readersOpen) == 0 then Raised(NoReadersOpen) else Ok
      ensures r.Raised? ==> unchanged(this)
      ensures r.Ok? ==> runs == old(runs[readersOpen..]) && fileOffset == old(fileOffset + readersOpen)
    {
      if readersOpen == 0 {
        return Raised(NoReadersOpen);
      }
      hide Holds, ReadsFrom, KeepsRuns;
      KeepsParts(codec, runs, readersOpen);
      DeleteFirst(readersOpen);
      fileOffset := fileOffset + readersOpen;
      runs := runs[readersOpen..];
      readersOpen := 0;
      r := Ok;
    }

    // (1, y) becomes (0, y + 1): the last run is moved without copying it. No reader may be open on it.
    method MoveLastReaderToNextLevel() returns (r: Outcome)
      requires Valid()
      modifies this`nextLevelFileOffset
      ensures Valid() <==> r.Raised? || readersOpen == 0
      ensures r == if old(RemainingRuns()) != 1 then Raised(NotOneRun) else Ok
      ensures nextLevelFileOffset == if r.Ok? then fileOffset else old(nextLevelFileOffset)
    {
      if RemainingRuns() != 1 {
        return Raised(NotOneRun);
      }
      nextLevelFileOffset := fileOffset;
      r := Ok;
    }

    method Reset()
      requires Valid()
      modifies this
      ensures Valid() && peak == old(peak) && runs == [] && disk == map[] && !writerOpen && readersOpen == 0
        && nextFileOffset == 0
    {
      hide Holds;
      if readersOpen > 0 {
        var _ := CloseReadersAndDelete();
      }
      readers := [];
      if writerOpen {
        var _ := CloseWriter();
      }
      DeleteFirst(nextFileOffset - fileOffset);
      assert runs[nextFileOffset - fileOffset..] == [];
      HoldsNothing(codec, disk, nextFileOffset);
      HoldsNothing(codec, disk, 0);
      fileOffset, nextLevelFileOffset, nextFileOffset := 0, 0, 0;
      runs := [];
    }

    method DeleteFirst(n: nat)
      requires OnDisk() && n <= nextFileOffset - fileOffset
      modifies this`disk
      ensures Holds(codec, disk, fileOffset + n, runs[n..])
    {
      hide Holds;
      for i := 0 to n
        modifies this`disk
        invariant Holds(codec, disk, fileOffset + i, runs[i..])
      {
        HoldsRest(codec, disk, fileOffset + i, runs[i..]);
        disk := disk - {fileOffset + i};
      }
    }
  }

  /** With one reader open, the second one is asked in vain whether it is there. */
  method StaleReader() returns (r: Outcome, readersOpen: nat)
    ensures r == Ok && readersOpen == 1
  {
    var files := new FileHandler(Format(Trivial(1), _ => Plain([0]), _ => Item(0, 0)));
    for i := 0 to 3
      invariant fresh(files) && files.Valid() && !files.writerOpen && files.readersOpen == 0
      invariant files.RemainingRuns() == 0 && files.NextLevelRuns() == i
    {
      var _ := files.OpenNewWriter();
      var _ := files.CloseWriter();
    }
    r := files.OpenReaders(2);
    r := files.CloseReadersAndDelete();
    r := files.OpenReaders(1);
    readersOpen := files.readersOpen;
    var can;
    r, can := files.CanRead(1);
  }

  /** A run of one item that takes no bytes: its reader has nothing to read. */
  method LostWithoutBytes() returns (r: Outcome, can: bool, ghost runs: seq<seq<Item>>)
    ensures r == Ok && !can && runs == [[Item(0, 0)]]
  {
    hide Holds, RunBytes;
    var files := new FileHandler(Format(Tuple([]), _ => Many([]), _ => Item(0, 0)));
    r := files.OpenNewWriter();
    r := files.Write(Item(0, 0));
    r := files.CloseWriter();
    r := files.OpenReaders(1);
    runs := files.runs;
    BytesLeft(files.codec, runs[0], 0);
    LeftAtFirst(files.codec, runs[0]);
    r, can := files.CanRead(0);
  }
}
