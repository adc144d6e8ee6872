/** Block-structured byte streams, forward and reverse: tpie/serialization_stream.h and .cpp. */
module SerializationStreams {
  import opened Options
  import opened Arithmetic
  import opened Bytes

  const MAGIC: nat := 0xfa34_0f49_edba_da67
  const VERSION: nat := 1

  // The two flags are characters, of which only 0 and 1 are valid.
  datatype Header = Header(magic: nat, version: nat, size: nat, cleanClose: nat, reverse: nat)

  function Flag(b: bool): nat {
    if b then 1 else 0
  }

  // The header that a writer writes.
  function Written(size: nat, cleanClose: bool, reverse: bool): Header {
    Header(MAGIC, VERSION, size, Flag(cleanClose), Flag(reverse))
  }

  // A stream file: its header, and the bytes after the header.
  datatype File = File(header: Header, bytes: seq<Byte>)

  datatype Error =
    | BadMagic | VersionTooOld | VersionTooNew | NotClosedProperly | ReverseNotBoolean | NotReverse | IsReverse

  // The bytes after n bytes at offset have been replaced, or added to the end.
  function WriteAt(bytes: seq<Byte>, offset: nat, data: seq<Byte>): seq<Byte>
    requires offset <= |bytes|
  {
    bytes[..offset] + data + if offset + |data| <= |bytes| then bytes[offset + |data|..] else []
  }

  // serialization_writer_base: blocks are appended, and all but the last one are full.
  class WriterBase {
    const blockSize: nat
    var file: File
    var blocksWritten: nat
    var size: nat
    var isOpen: bool

    constructor (blockSize: nat)
      requires blockSize >= 1
      ensures this.blockSize == blockSize && !isOpen
    {
      this.blockSize := blockSize;
      file := File(Written(0, false, false), []);
      blocksWritten, size, isOpen := 0, 0, false;
    }

    method Open(reverse: bool)
      modifies this
      ensures isOpen && size == 0 && blocksWritten == 0 && file == File(Written(0, false, reverse), [])
    {
      isOpen := true;
      blocksWritten, size := 0, 0;
      file := File(Written(0, false, reverse), []);
    }

    method WriteBlock(s: seq<Byte>)
      requires |s| <= blockSize && |file.bytes| == blocksWritten * blockSize
      modifies this
      ensures file == old(file).(bytes := old(file.bytes) + s) && size == |file.bytes|
      ensures blocksWritten == old(blocksWritten) + 1 && isOpen == old(isOpen)
    {
      var offset := blocksWritten * blockSize;
      file := file.(bytes := WriteAt(file.bytes, offset, s));
      blocksWritten := blocksWritten + 1;
      size := offset + |s|;
    }

    method Close(reverse: bool)
      modifies this
      ensures !isOpen && file.bytes == old(file.bytes)
      ensures old(isOpen) ==> file.header == Written(old(size), true, reverse)
      ensures !old(isOpen) ==> unchanged(this)
    {
      if !isOpen {
        return;
      }
      file := file.(header := Written(size, true, reverse));
      isOpen := false;
    }
  }

  class Writer {
    const base: WriterBase
    var block: array<Byte>
    var index: nat

    // Full blocks are on disk, and the rest is in the block.
    ghost predicate Valid()
      reads this, base
    {
      && base.blockSize >= 1 && base.isOpen && block.Length == base.blockSize && index <= base.blockSize
      && base.size == |base.file.bytes| == base.blocksWritten * base.blockSize
      && base.file.header == Written(0, false, false)
    }

    ghost function Contents(): seq<Byte>
      requires Valid()
      reads this, base, block
    {
      base.file.bytes + block[..index]
    }

    constructor (blockSize: nat)
      requires blockSize >= 1
      ensures Valid() && fresh(base) && fresh(block) && base.blockSize == blockSize && Contents() == []
    {
      var base := new WriterBase(blockSize);
      base.Open(false);
      this.base := base;
      block := new Byte[blockSize](_ => 0);
      index := 0;
    }

    method WriteBlock()
      requires Valid() && index == base.blockSize
      modifies this`index, base
      ensures Valid() && index == 0 && Contents() == old(Contents())
    {
      MulNext(base.blocksWritten, base.blockSize);
      base.WriteBlock(block[..index]);
      index := 0;
    }

    /** Writes the bytes behind what was written before, across any number of blocks. */
    method Write(s: seq<Byte>)
      requires Valid()
      modifies this`index, base, block
      ensures Valid() && Contents() == old(Contents()) + s
    {
      var n := |s|;
      var written := 0;
      while written != n
        invariant Valid() && written <= n && Contents() == old(Contents()) + s[..written]
        decreases n - written, base.blockSize
      {
        if index >= base.blockSize {
          WriteBlock();
        }
        var remaining := n - written;
        var blockRemaining := base.blockSize - index;
        var writeSize := if remaining < blockRemaining then remaining else blockRemaining;
        CopyIn(s, written, writeSize);
        written := written + writeSize;
      }
    }

    method CopyIn(s: seq<Byte>, from: nat, n: nat)
      requires Valid() && from + n <= |s| && index + n <= base.blockSize
      modifies this`index, block
      ensures Valid() && index == old(index) + n && Contents() == old(Contents()) + s[from..from + n]
    {
      ghost var before := block[..index];
      forall k | 0 <= k < n {
        block[index + k] := s[from + k];
      }
      index := index + n;
      assert block[..index] == before + s[from..from + n];
    }

    method Close()
      requires Valid()
      modifies this, base
      ensures base.file == File(Written(old(|Contents()|), true, false), old(Contents()))
    {
      if index > 0 {
        base.WriteBlock(block[..index]);
      }
      block := new Byte[0];
      index := 0;
      base.Close(false);
    }
  }

  lemma TailReversed(before: seq<Byte>, data: seq<Byte>, low: nat, mid: nat)
    requires low <= mid <= |data|
    ensures before + Reversed(data[mid..]) + Reversed(data[low..mid]) == before + Reversed(data[low..])
  {
    assert data[low..] == data[low..mid] + data[mid..];
    ReversedConcat(data[low..mid], data[mid..]);
  }

  class ReverseWriter {
    const base: WriterBase
    var block: array<Byte>
    var index: nat
    var serializationBuffer: seq<Byte>

    // The last `index` bytes of the block wait to be reversed and written.
    ghost predicate Valid()
      reads this`block, this`index, base
    {
      && base.blockSize >= 1 && base.isOpen && block.Length == base.blockSize && index <= base.blockSize
      && base.size == |base.file.bytes| == base.blocksWritten * base.blockSize
      && base.file.header == Written(0, false, true)
    }

    ghost function Contents(): seq<Byte>
      requires Valid()
      reads this`block, this`index, base, block
    {
      base.file.bytes + Reversed(block[block.Length - index..])
    }

    constructor (blockSize: nat)
      requires blockSize >= 1
      ensures Valid() && fresh(base) && fresh(block) && base.blockSize == blockSize
      ensures Contents() == [] && serializationBuffer == []
    {
      var base := new WriterBase(blockSize);
      base.Open(true);
      this.base := base;
      block := new Byte[blockSize](_ => 0);
      index := 0;
      serializationBuffer := [];
    }

    method WriteBlock()
      requires Valid() && index == base.blockSize
      modifies this`index, base, block
      ensures Valid() && index == 0 && Contents() == old(Contents())
    {
      MulNext(base.blocksWritten, base.blockSize);
      FlushBlock();
    }

    // std::reverse on the whole block moves the waiting bytes to the front.
    method FlushBlock()
      requires Valid()
      modifies this`index, base, block
      ensures base.file == old(base.file).(bytes := old(Contents())) && base.size == |base.file.bytes|
      ensures base.blocksWritten == old(base.blocksWritten) + 1 && base.isOpen && index == 0
    {
      ghost var waiting := block[block.Length - index..];
      forall k | 0 <= k < block.Length {
        block[k] := block[block.Length - 1 - k];
      }
      assert block[..index] == Reversed(waiting);
      base.WriteBlock(block[..index]);
      index := 0;
    }

    // The bytes of an item are gathered first.
    method Write(s: seq<Byte>)
      modifies this`serializationBuffer
      ensures serializationBuffer == old(serializationBuffer) + s
    {
      serializationBuffer := serializationBuffer + s;
    }

    /** At its end the item is stored from the last byte to the first, across any number of blocks. */
    method EndItem()
      requires Valid()
      modifies this`index, this`serializationBuffer, base, block
      ensures Valid() && serializationBuffer == []
      ensures Contents() == old(Contents()) + Reversed(old(serializationBuffer))
    {
      hide Reversed, Contents;
      var data := serializationBuffer;
      var n := |data|;
      if index + n <= base.blockSize {
        CopyIn(data, n, n);
        assert data[0..n] == data;
      } else {
        var written := 0;
        while written != n
          invariant Valid() && written <= n && serializationBuffer == data
          invariant Contents() == old(Contents()) + Reversed(data[n - written..])
          decreases n - written
        {
          if index >= base.blockSize {
            WriteBlock();
          }
          var remaining := n - written;
          var blockRemaining := base.blockSize - index;
          var writeSize := if remaining < blockRemaining then remaining else blockRemaining;
          CopyIn(data, n - written, writeSize);
          TailReversed(old(Contents()), data, n - written - writeSize, n - written);
          written := written + writeSize;
        }
        assert data[0..] == data;
      }
      serializationBuffer := [];
    }

    // Copies the n bytes before `to` in front of those waiting in the block.
    method CopyIn(s: seq<Byte>, to: nat, n: nat)
      requires Valid() && n <= to <= |s| && index + n <= base.blockSize
      modifies this`index, block
      ensures Valid() && index == old(index) + n && Contents() == old(Contents()) + Reversed(s[to - n..to])
    {
      ghost var before := block[block.Length - index..];
      var start := block.Length - index - n;
      forall k | 0 <= k < n {
        block[start + k] := s[to - n + k];
      }
      index := index + n;
      assert block[block.Length - index..] == s[to - n..to] + before;
      ReversedConcat(s[to - n..to], before);
    }

    method Close()
      requires Valid()
      modifies this, base, block
      ensures base.file == File(Written(old(|Contents()|), true, true), old(Contents()))
    {
      if index > 0 {
        FlushBlock();
      }
      block := new Byte[0];
      index := 0;
      base.Close(true);
    }
  }

  // Byte number k of a file in reading order is in block k / blockSize, counted from the end when reversed.
  lemma ReversedPart(bytes: seq<Byte>, from: nat, to: nat)
    requires from <= to <= |bytes|
    ensures Reversed(bytes)[|bytes| - to..|bytes| - from] == Reversed(bytes[from..to])
  {
    var part, whole := bytes[from..to], Reversed(bytes)[|bytes| - to..|bytes| - from];
    forall i | 0 <= i < to - from ensures whole[i] == Reversed(part)[i] {
      assert whole[i] == Reversed(bytes)[|bytes| - to + i];
    }
  }

  lemma PartOfPart(part: seq<Byte>, all: seq<Byte>, start: nat, i: nat, n: nat)
    requires start + |part| <= |all| && part == all[start..start + |part|] && i + n <= |part|
    ensures part[i..i + n] == all[start + i..start + i + n]
  {
    var inner, outer := part[i..i + n], all[start + i..start + i + n];
    forall k | 0 <= k < n ensures inner[k] == outer[k] {
      assert part[i + k] == all[start + (i + k)];
    }
  }

  ghost predicate IsPart(part: seq<Byte>, all: seq<Byte>, start: nat) {
    start + |part| <= |all| && part == all[start..start + |part|]
  }

  lemma NoPart(all: seq<Byte>, start: nat)
    requires start <= |all|
    ensures IsPart([], all, start)
  {
  }

  lemma PartsJoin(all: seq<Byte>, start: nat, part: seq<Byte>, next: seq<Byte>)
    requires IsPart(part, all, start) && IsPart(next, all, start + |part|)
    ensures IsPart(part + next, all, start)
  {
  }

  lemma RestOfPart(part: seq<Byte>, all: seq<Byte>, start: nat)
    requires IsPart(part, all, start)
    ensures all[start..][..|part|] == part && all[start..][|part|..] == all[start + |part|..]
  {
  }

  /** serialization_reader, and serialization_reverse_reader, which differ in the order of the blocks. */
  class Reader {
    const reverse: bool
    const blockSize: nat
    const file: File
    const size: nat
    var block: array<Byte>
    var index: nat
    var blockLength: nat
    var blockNumber: nat
    ghost var past: nat  // how many forward reads have failed at the end of a file that is not empty

    ghost function Source(): (bytes: seq<Byte>)
      ensures |bytes| == |file.bytes|
    {
      if reverse then Reversed(file.bytes) else file.bytes
    }

    // Where the block that was read last starts in Source().
    ghost function BlockStart(): int
      reads this
    {
      if reverse then size - blockNumber * blockSize - blockLength else (blockNumber - past) * blockSize
    }

    ghost predicate AtStart()
      requires blockSize >= 1
      reads this
    {
      index == 0 && past == 0 && blockNumber == if reverse then Ceil(size, blockSize) else 0
    }

    ghost predicate InBlock()
      reads this, block
    {
      && size == |file.bytes| && 0 <= BlockStart() && BlockStart() + blockLength <= size && blockLength <= block.Length
      && block[..blockLength] == Source()[BlockStart()..BlockStart() + blockLength]
      && (if reverse then past == 0
          else past <= blockNumber && (blockLength < blockSize || past > 0 ==> BlockStart() + blockLength == size))
      && (past > 0 ==> index == blockLength)
    }

    ghost predicate Valid()
      reads this, block
    {
      && blockSize >= 1 && size == |file.bytes| && block.Length == blockSize && index <= blockLength <= blockSize
      && if blockLength == 0 then AtStart() else InBlock()
    }

    ghost function Consumed(): nat
      requires Valid()
      reads this, block
    {
      if blockLength == 0 then 0 else BlockStart() + index
    }

    ghost function Unread(): seq<Byte>
      requires Valid()
      reads this, block
    {
      Source()[Consumed()..]
    }

    constructor (file: File, reverse: bool, blockSize: nat)
      requires blockSize >= 1 && file.header.size == |file.bytes|
      ensures Valid() && fresh(block) && this.file == file && this.reverse == reverse && this.blockSize == blockSize
      ensures past == 0 && Consumed() == 0 && Unread() == if reverse then Reversed(file.bytes) else file.bytes
    {
      this.file, this.reverse, this.blockSize := file, reverse, blockSize;
      size := file.header.size;
      block := new Byte[blockSize](_ => 0);
      index, blockLength, past := 0, 0, 0;
      blockNumber := if reverse then Ceil(file.header.size, blockSize) else 0;
    }

    method ReadBlock(blk: nat) returns (ok: bool)
      requires blockSize >= 1 && size == |file.bytes| && block.Length == blockSize
      modifies this`index, this`blockLength, block
      ensures ok <==> blk * blockSize < size
      ensures !ok ==> index == old(index) && blockLength == old(blockLength) && block[..] == old(block[..])
      ensures ok ==>
        && index == 0 && 0 < blockLength <= blockSize
        && blockLength == Min(blk * blockSize + blockSize, size) - blk * blockSize
      ensures ok ==> block[..blockLength] == file.bytes[blk * blockSize..blk * blockSize + blockLength]
    {
      var from := blk * blockSize;
      var to := Min(from + blockSize, size);
      if to <= from {
        return false;
      }
      FillBlock(from, to);
      return true;
    }

    method FillBlock(from: nat, to: nat)
      requires from <= to <= |file.bytes| && to - from <= block.Length
      modifies this`index, this`blockLength, block
      ensures index == 0 && blockLength == to - from && block[..blockLength] == file.bytes[from..to]
    {
      index := 0;
      blockLength := to - from;
      forall k | 0 <= k < blockLength {
        block[k] := file.bytes[from + k];
      }
    }

    method NextForward() returns (ok: bool)
      requires Valid() && !reverse && index == blockLength
      modifies this, block
      ensures Valid() && block == old(block)
      ensures ok <==> old(Consumed()) < size
      ensures Consumed() == old(Consumed())
      ensures if ok then past == old(past) == 0 && index < blockLength
        else past == old(past) + if size > 0 then 1 else 0
      ensures !ok ==> index == blockLength
    {
      ghost var n, consumed, late := blockNumber - past, Consumed(), past;
      if blockLength == 0 {
        blockNumber := 0;
      } else {
        blockNumber := blockNumber + 1;
        MulNext(n, blockSize);
        MulMonotone(n + 1, blockNumber, blockSize);
      }
      ok := ReadBlock(blockNumber);
      past := if !ok && blockLength > 0 then late + 1 else 0;
    }

    method NextReverse() returns (ok: bool)
      requires Valid() && reverse && index == blockLength
      modifies this, block
      ensures Valid() && block == old(block)
      ensures ok <==> old(Consumed()) < size
      ensures Consumed() == old(Consumed()) && past == old(past) == 0
      ensures ok ==> index < blockLength
      ensures !ok ==> index == blockLength
    {
      BlockBefore();
      if blockNumber == 0 {
        return false;
      }
      hide Reversed, InBlock, Valid, Consumed, Source;
      ghost var from, consumed := (blockNumber - 1) * blockSize, Consumed();
      blockNumber := blockNumber - 1;
      ok := ReadReversed(from);
      ReverseInBlock(consumed, from);
    }

    method ReadReversed(ghost from: nat) returns (ok: bool)
      requires blockSize >= 1 && size == |file.bytes| && block.Length == blockSize
        && from == blockNumber * blockSize < size
      modifies this`index, this`blockLength, block
      ensures ok && index == 0 < blockLength <= blockSize && from + blockLength == Min(from + blockSize, size)
      ensures block[..blockLength] == Reversed(file.bytes[from..from + blockLength])
    {
      hide Reversed;
      ok := ReadBlock(blockNumber);
      ReverseBlock();
    }

    lemma ReverseInBlock(start: nat, from: nat)
      requires reverse && past == 0 && size == |file.bytes| && index == 0 < blockLength <= blockSize == block.Length
      requires from == blockNumber * blockSize && from + blockLength == size - start
      requires block[..blockLength] == Reversed(file.bytes[from..from + blockLength])
      ensures Valid() && Consumed() == start
    {
      ReversedPart(file.bytes, from, from + blockLength);
      assert BlockStart() == start;
    }

    // The bytes not read yet end with the block before the current one.
    lemma BlockBefore()
      requires Valid() && reverse && index == blockLength
      ensures past == 0 && size == |file.bytes| && block.Length == blockSize >= 1
      ensures blockNumber == 0 ==> Consumed() == size
      ensures blockNumber > 0 ==>
        var from := (blockNumber - 1) * blockSize; 0 <= from < size && Min(from + blockSize, size) == size - Consumed()
    {
      FirstBlocks(blockNumber);
      if blockNumber > 0 {
        MulNext(blockNumber - 1, blockSize);
        MulMonotone(0, blockNumber - 1, blockSize);
      }
    }

    // std::reverse on what was read of the block.
    method ReverseBlock()
      requires blockLength <= block.Length
      modifies block
      ensures block[..blockLength] == Reversed(old(block[..blockLength]))
    {
      forall k | 0 <= k < blockLength {
        block[k] := block[blockLength - 1 - k];
      }
    }

    lemma FirstBlocks(n: nat)
      requires blockSize >= 1
      ensures n == Ceil(size, blockSize) && size > 0 ==> n >= 1 && (n - 1) * blockSize < size <= n * blockSize
      ensures Ceil(0, blockSize) == 0
    {
      if size > 0 {
        CeilBounds(size, blockSize);
      }
      CeilUnique(0, blockSize, 0);
    }

    method NextBlock() returns (ok: bool)
      requires Valid() && index == blockLength
      modifies this, block
      ensures Valid() && block == old(block)
      ensures ok <==> old(Consumed()) < size
      ensures Consumed() == old(Consumed())
      ensures if ok then past == old(past) == 0 && index < blockLength
              else index == blockLength && past == old(past) + if !reverse && size > 0 then 1 else 0
    {
      if reverse {
        ok := NextReverse();
      } else {
        ok := NextForward();
      }
    }

    /**
     * The next n bytes, across any number of blocks; None, the end-of-stream exception, exactly when fewer are left.
     */
    method Read(n: nat) returns (r: Option<seq<Byte>>)
      requires Valid()
      modifies this, block
      ensures Valid() && block == old(block)
      ensures r.Some? <==> n <= old(|Unread()|)
      ensures r.Some? ==> r.value == old(Unread())[..n] && Unread() == old(Unread())[n..] && past == old(past)
      ensures r.None? ==> Unread() == [] && past == old(past) + if !reverse && size > 0 then 1 else 0
    {
      ghost var source, start := Source(), Consumed();
      var ok, s := ReadBytes(n);
      if !ok {
        assert source[size..] == [];
        return None;
      }
      RestOfPart(s, source, start);
      return Some(s);
    }

    method ReadBytes(n: nat) returns (ok: bool, s: seq<Byte>)
      requires Valid()
      modifies this, block
      ensures Valid() && block == old(block) && old(Consumed()) <= size == |Source()|
      ensures ok <==> old(Consumed()) + n <= size
      ensures ok ==> Consumed() == old(Consumed()) + n && past == old(past)
      ensures ok ==> |s| == n && IsPart(s, Source(), old(Consumed()))
      ensures !ok ==> Consumed() == size && past == old(past) + if !reverse && size > 0 then 1 else 0
    {
      s := [];
      ghost var start := Consumed();
      NotPastEnd();
      NoPart(Source(), start);
      hide Valid, Consumed, Source, IsPart;
      while |s| != n
        invariant Valid() && block == old(block) && |s| <= n && past == old(past)
        invariant start + |s| == Consumed() <= size && IsPart(s, Source(), start)
        decreases n - |s|
      {
        var part;
        ok, part := ReadSome(n - |s|);
        if !ok {
          return false, [];
        }
        PartsJoin(Source(), start, s, part);
        s := s + part;
      }
      return true, s;
    }

    // Reads from one block, the next one if the current one is exhausted.
    method ReadSome(remaining: nat) returns (ok: bool, part: seq<Byte>)
      requires Valid() && remaining > 0
      modifies this, block
      ensures Valid() && block == old(block) && old(Consumed()) <= size
      ensures ok <==> old(Consumed()) < size
      ensures ok ==> 0 < |part| <= remaining && Consumed() == old(Consumed()) + |part| <= size && past == old(past)
      ensures ok ==> IsPart(part, Source(), old(Consumed()))
      ensures !ok ==> Consumed() == size && past == old(past) + if !reverse && size > 0 then 1 else 0
    {
      NotPastEnd();
      hide InBlock, AtStart, Reversed;
      if index >= blockLength {
        ok := NextBlock();
        if !ok {
          return false, [];
        }
      }
      NotPastEnd();
      part := CopyOut(Min(remaining, blockLength - index));
      return true, part;
    }

    lemma NothingUnread()
      requires Valid() && Unread() == []
      ensures Consumed() == size
    {
      NotPastEnd();
      assert |Source()[Consumed()..]| == size - Consumed();
    }

    lemma NotPastEnd()
      requires Valid()
      ensures Consumed() <= size == |Source()|
      ensures Consumed() + blockLength - index <= size
      ensures index < blockLength ==> past == 0
    {
    }

    // What is next in the block is next in reading order.
    lemma BlockPart(n: nat)
      requires Valid() && index < blockLength && n <= blockLength - index
      ensures Consumed() + n <= size && IsPart(block[index..index + n], Source(), Consumed())
    {
      hide Reversed;
      PartOfPart(block[..blockLength], Source(), BlockStart(), index, n);
      assert block[index..index + n] == block[..blockLength][index..index + n];
    }

    method CopyOut(n: nat) returns (s: seq<Byte>)
      requires Valid() && index < blockLength && n <= blockLength - index
      modifies this`index
      ensures Valid() && Consumed() == old(Consumed()) + n <= size
      ensures |s| == n && IsPart(s, Source(), old(Consumed()))
    {
      hide Reversed, IsPart, Source;
      BlockPart(n);
      s := block[index..index + n];
      index := index + n;
    }

    /** can_read holds exactly when bytes are left. */
    method CanRead() returns (can: bool)
      requires Valid()
      ensures can <==> Unread() != []
    {
      if index < blockLength {
        return true;
      }
      FirstBlocks(blockNumber);
      MulMonotone(blockNumber - past, blockNumber, blockSize);
      if reverse {
        return blockNumber > 0;
      }
      return blockNumber * blockSize + index < size;
    }

    /** The bytes read so far, but a block too many for every forward read that has failed on a file with content. */
    method Offset() returns (n: nat)
      requires Valid()
      ensures n == Consumed() + past * blockSize
      ensures n == Consumed() <==> past == 0
    {
      if blockLength == 0 {
        return 0;
      }
      assert blockNumber * blockSize == (blockNumber - past) * blockSize + past * blockSize;
      if past > 0 {
        MulMonotone(1, past, blockSize);
      }
      if reverse {
        return size - blockNumber * blockSize - blockLength + index;
      }
      return blockNumber * blockSize + index;
    }
  }

  /** Which check of a header fails first. */
  function Verify(header: Header): Option<Error> {
    if header.magic != MAGIC then Some(BadMagic)
    else if header.version < VERSION then Some(VersionTooOld)
    else if header.version > VERSION then Some(VersionTooNew)
    else if header.cleanClose != 1 then Some(NotClosedProperly)
    else if header.reverse != 0 && header.reverse != 1 then Some(ReverseNotBoolean)
    else None
  }

  /** Opens a stream that was closed properly, in the direction in which it was written. */
  method OpenReader(file: File, reverse: bool, blockSize: nat) returns (e: Option<Error>, r: Reader?)
    requires blockSize >= 1
    requires file.header == Written(file.header.size, true, reverse) ==> file.header.size == |file.bytes|
    ensures e.None? <==> file.header == Written(file.header.size, true, reverse)
    ensures var h := file.header;
      && (e == Some(BadMagic) <==> h.magic != MAGIC)
      && (e == Some(VersionTooOld) <==> h.magic == MAGIC && h.version < VERSION)
      && (e == Some(VersionTooNew) <==> h.magic == MAGIC && h.version > VERSION)
      && (e == Some(NotClosedProperly) <==> h.magic == MAGIC && h.version == VERSION && h.cleanClose != 1)
      && (e == Some(ReverseNotBoolean) <==>
        h.magic == MAGIC && h.version == VERSION && h.cleanClose == 1 && h.reverse != 0 && h.reverse != 1)
      && (e == Some(NotReverse) <==> h == Written(h.size, true, false) && reverse)
      && (e == Some(IsReverse) <==> h == Written(h.size, true, true) && !reverse)
    ensures e.Some? <==> r == null
    ensures e.None? ==> fresh(r) && fresh(r.block) && r.Valid() && r.past == 0 && r.Consumed() == 0
    ensures e.None? ==> r.reverse == reverse && r.blockSize == blockSize && r.size == |file.bytes|
    ensures e.None? ==> r.Unread() == if reverse then Reversed(file.bytes) else file.bytes
  {
    e := Verify(file.header);
    if e.Some? {
      return e, null;
    }
    if reverse && file.header.reverse == 0 {
      return Some(NotReverse), null;
    }
    if !reverse && file.header.reverse == 1 {
      return Some(IsReverse), null;
    }
    r := new Reader(file, reverse, blockSize);
  }

  /** A file whose writer has not been closed cannot be opened. */
  method OpenedTooEarly(bytes: seq<Byte>, reverse: bool) returns (e: Option<Error>)
    ensures e == Some(NotClosedProperly)
  {
    var w := new Writer(4);
    w.Write(bytes);
    var r;
    e, r := OpenReader(w.base.file, reverse, 4);
  }

  /** Files of another kind, of an older version and of a newer one. */
  method OpenedByMistake(file: File, reverse: bool)
    returns (other: Option<Error>, old': Option<Error>, new': Option<Error>)
    requires file.header == Written(|file.bytes|, true, reverse)
    ensures other == Some(BadMagic) && old' == Some(VersionTooOld) && new' == Some(VersionTooNew)
  {
    var h, r := file.header, null;
    other, r := OpenReader(file.(header := h.(magic := h.magic + 1)), reverse, 4);
    old', r := OpenReader(file.(header := h.(version := h.version - 1)), reverse, 4);
    new', r := OpenReader(file.(header := h.(version := h.version + 1)), reverse, 4);
  }

  method OneByte(x: Byte) returns (file: File)
    ensures file == File(Written(1, true, false), [x])
  {
    hide Writer.Valid;
    var w := new Writer(4);
    w.Write([x]);
    w.Close();
    file := w.base.file;
  }

  /** After an attempt to read two bytes of one, the offset is beyond the size. */
  method ReadingPastTheEnd(x: Byte) returns (offset: nat, size: nat)
    ensures offset > size
  {
    hide Reader.Valid, Reader.Unread, Reader.Consumed, Reversed;
    var file := OneByte(x);
    var e, r := OpenReader(file, false, 4);
    var bytes := r.Read(2);
    r.NothingUnread();
    offset := r.Offset();
    size := r.size;
  }
}
