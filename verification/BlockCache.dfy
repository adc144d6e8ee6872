/** The block cache of a file shared by many streams: tpie/file_base.cpp, file_base.h and file.h. */
module BlockCache {
  import opened Options
  import opened Arithmetic
  import opened Order

  type BlockId = nat
  type StreamId = nat

  datatype Block = Block(size: nat, usage: nat, number: nat, dirty: bool, data: seq<Item>)

  // The block and the index a stream moves to before its next access.
  datatype Target = Target(block: nat, index: nat)

  // A stream of the file. Without a block it stands at the empty block, of size 0.
  datatype Stream = Stream(block: Option<BlockId>, index: nat, start: nat, next: Option<Target>)

  const MAX_INDEX: nat := 0xFFFF_FFFF_FFFF_FFFF

  type Blocks = map<BlockId, Block>
  type Streams = map<StreamId, Stream>

  // ---------- The plain array, cut into blocks of b items

  function Part(items: seq<Item>, b: nat, n: nat): (part: seq<Item>)
    ensures |part| <= b
    ensures n * b <= |items| ==> |part| == Min(b, |items| - n * b)
  {
    if n * b >= |items| then [] else items[n * b..Min(n * b + b, |items|)]
  }

  function Put(items: seq<Item>, offset: nat, x: Item): seq<Item>
    requires offset <= |items|
  {
    if offset < |items| then items[offset := x] else items + [x]
  }

  lemma PutAt(items: seq<Item>, offset: nat, x: Item)
    requires offset <= |items|
    ensures |Put(items, offset, x)| == (if offset < |items| then |items| else |items| + 1)
    ensures Put(items, offset, x)[offset] == x
    ensures forall k :: 0 <= k < |items| && k != offset ==> Put(items, offset, x)[k] == items[k]
  {
  }

  lemma PutElsewhere(items: seq<Item>, b: nat, n: nat, i: nat, offset: nat, x: Item, m: nat)
    requires i < b && offset == n * b + i && offset <= |items| && m != n
    ensures Part(Put(items, offset, x), b, m) == Part(items, b, m)
  {
    if m < n {
      MulNext(m, b);
      MulMonotone(m + 1, n, b);
    } else {
      MulNext(n, b);
      MulMonotone(n + 1, m, b);
    }
  }

  lemma PutHere(items: seq<Item>, b: nat, n: nat, i: nat, offset: nat, x: Item)
    requires i < b && offset == n * b + i && offset <= |items|
    ensures i <= |Part(items, b, n)|
    ensures Part(Put(items, offset, x), b, n) == Put(Part(items, b, n), i, x)
  {
  }

  lemma PartAt(items: seq<Item>, b: nat, n: nat, i: nat)
    requires i < |Part(items, b, n)|
    ensures n * b + i < |items| && items[n * b + i] == Part(items, b, n)[i]
  {
  }

  // ---------- What ties the blocks to the plain array

  // A buffer in use holds its part of the array; a clean one is also on disk.
  ghost predicate BufferOk(items: seq<Item>, b: nat, disk: map<nat, seq<Item>>, block: Block) {
    && block.number * b <= |items| && |block.data| == b && block.size <= b
    && block.data[..block.size] == Part(items, b, block.number)
    && (!block.dirty && block.size > 0 ==> block.number in disk && disk[block.number] == Part(items, b, block.number))
  }

  ghost predicate Buffers(items: seq<Item>, b: nat, disk: map<nat, seq<Item>>, blocks: Blocks, used: set<BlockId>) {
    && used <= blocks.Keys
    && (forall id :: id in used ==> BufferOk(items, b, disk, blocks[id]))
    && (forall id, id' :: id in used && id' in used && blocks[id].number == blocks[id'].number ==> id == id')
  }

  predicate Buffered(blocks: Blocks, used: set<BlockId>, n: nat)
    requires used <= blocks.Keys
  {
    exists id :: id in used && blocks[id].number == n
  }

  ghost predicate PartOnDisk(items: seq<Item>, b: nat, disk: map<nat, seq<Item>>, n: nat) {
    n * b < |items| ==> n in disk && disk[n] == Part(items, b, n)
  }

  // What is not buffered is on disk.
  ghost predicate Stored(items: seq<Item>, b: nat, disk: map<nat, seq<Item>>, blocks: Blocks, used: set<BlockId>)
    requires used <= blocks.Keys
  {
    forall n: nat :: Buffered(blocks, used, n) || PartOnDisk(items, b, disk, n)
  }

  // ---------- Who holds which block

  ghost function Holders(streams: Streams, id: BlockId): set<StreamId> {
    set s | s in streams && streams[s].block == Some(id)
  }

  ghost predicate Usages(streams: Streams, blocks: Blocks, used: set<BlockId>)
    requires used <= blocks.Keys
  {
    && (forall id :: id in used ==> blocks[id].usage == |Holders(streams, id)| && blocks[id].usage > 0)
    && (forall s :: s in streams && streams[s].block.Some? ==> streams[s].block.value in used)
  }

  ghost predicate Lists(streams: Streams, blocks: Blocks, used: set<BlockId>, free: set<BlockId>, nextId: nat) {
    && used !! free && used + free == blocks.Keys && |used| + |free| == |streams|
    && forall id :: id in blocks ==> id < nextId
  }

  lemma {:induction false} UsedAtMost(streams: Streams, holders: set<StreamId>, used: set<BlockId>)
    requires holders <= streams.Keys
    requires forall id :: id in used ==> exists s :: s in holders && streams[s].block == Some(id)
    ensures |used| <= |holders|
  {
    if used != {} {
      var id :| id in used;
      var s :| s in holders && streams[s].block == Some(id);
      UsedAtMost(streams, holders - {s}, used - {id});
    }
  }

  /** A stream that holds no block leaves a buffer free for itself. */
  lemma SomethingFree(streams: Streams, blocks: Blocks, used: set<BlockId>, free: set<BlockId>, nextId: nat,
      s: StreamId)
    requires Lists(streams, blocks, used, free, nextId) && Usages(streams, blocks, used)
    requires s in streams && streams[s].block.None?
    ensures |free| >= 1 && free != {}
  {
    forall id | id in used ensures exists s' :: s' in streams.Keys - {s} && streams[s'].block == Some(id) {
      assert Holders(streams, id) != {};
      var s' :| s' in Holders(streams, id);
      assert s' in streams.Keys - {s};
    }
    UsedAtMost(streams, streams.Keys - {s}, used);
  }

  // ---------- Where a stream stands

  function OffsetOf(st: Stream, b: nat): nat {
    if st.next.None? then st.index + st.start else st.next.value.index + st.next.value.block * b
  }

  // A read past a partial last block leaves the stream on the empty block with its old index.
  predicate Stranded(st: Stream) {
    st.next.Some? && st.index != MAX_INDEX
  }

  ghost predicate StreamOk(st: Stream, size: nat, b: nat, blocks: Blocks)
  {
    && (st.block.Some? ==> st.block.value in blocks && st.start == blocks[st.block.value].number * b)
    && (if st.next.None? then st.block.Some? && st.index <= blocks[st.block.value].size
        else
          && st.next.value.index < b
          && if Stranded(st) then st.block.None? && st.next.value.index == 0 else OffsetOf(st, b) <= size)
  }

  ghost predicate StreamsOk(streams: Streams, size: nat, b: nat, blocks: Blocks) {
    forall s :: s in streams ==> StreamOk(streams[s], size, b, blocks)
  }

  // The buffers that streams hold keep their place.
  ghost predicate SameShape(before: Blocks, after: Blocks, ids: set<BlockId>) {
    forall id :: id in ids ==>
      && id in before && id in after
      && after[id].number == before[id].number && after[id].size == before[id].size
  }

  ghost predicate OthersOk(streams: Streams, s: StreamId, size: nat, b: nat, blocks: Blocks) {
    forall s' :: s' in streams && s' != s ==> StreamOk(streams[s'], size, b, blocks)
  }

  // ---------- The steps of getting and freeing a block, on values

  lemma HoldersChange(streams: Streams, s: StreamId, st: Stream, id: BlockId)
    requires s in streams
    ensures Holders(streams[s := st], id) == if st.block == Some(id) then Holders(streams, id) + {s}
      else Holders(streams, id) - {s}
  {
  }

  lemma HoldersWithout(streams: Streams, s: StreamId, id: BlockId, st: Stream, x: BlockId)
    requires s in streams && streams[s].block == Some(id) && st.block.None?
    ensures |Holders(streams[s := st], x)| == |Holders(streams, x)| - if x == id then 1 else 0
  {
    HoldersChange(streams, s, st, x);
    if x == id {
      assert s in Holders(streams, id);
    } else {
      assert Holders(streams[s := st], x) == Holders(streams, x);
    }
  }

  lemma OnlyHolder(streams: Streams, id: BlockId, s: StreamId, s': StreamId)
    requires |Holders(streams, id)| == 1 && s in Holders(streams, id) && s' in Holders(streams, id)
    ensures s == s'
  {
    SubsetSize({s, s'}, Holders(streams, id));
  }

  // A stream lets go of its block, which others may still hold.
  lemma LessUsed(streams: Streams, blocks: Blocks, used: set<BlockId>, s: StreamId, id: BlockId, st: Stream)
    requires used <= blocks.Keys && Usages(streams, blocks, used)
    requires s in streams && streams[s].block == Some(id) && st.block.None?
    ensures id in used && blocks[id].usage > 0
    ensures Usages(streams[s := st], blocks[id := blocks[id].(usage := blocks[id].usage - 1)],
                   if blocks[id].usage > 1 then used else used - {id})
  {
    var streams' := streams[s := st];
    forall x | x in used ensures |Holders(streams', x)| == |Holders(streams, x)| - if x == id then 1 else 0 {
      HoldersWithout(streams, s, id, st, x);
    }
    assert s in Holders(streams, id);
    hide Holders;
    forall s' | s' in streams' && streams'[s'].block == Some(id) ensures blocks[id].usage > 1 {
      StillHeld(streams, id, s, s');
    }
  }

  lemma StillHeld(streams: Streams, id: BlockId, s: StreamId, s': StreamId)
    requires s in Holders(streams, id) && s' in streams && streams[s'].block == Some(id) && s' != s
    ensures |Holders(streams, id)| > 1
  {
    if |Holders(streams, id)| == 1 {
      OnlyHolder(streams, id, s, s');
    }
  }

  // Another stream takes hold of a block.
  lemma MoreUsed(streams: Streams, blocks: Blocks, used: set<BlockId>, s: StreamId, id: BlockId, st: Stream,
      block: Block)
    requires used <= blocks.Keys && Usages(streams, blocks, used)
    requires s in streams && streams[s].block.None? && st.block == Some(id)
    requires block.usage == (if id in used then blocks[id].usage else 0) + 1
    ensures Usages(streams[s := st], blocks[id := block], used + {id})
  {
    var streams' := streams[s := st];
    forall x | x in used + {id} ensures |Holders(streams', x)| == |Holders(streams, x)| + if x == id then 1 else 0 {
      HoldersChange(streams, s, st, x);
      assert s !in Holders(streams, x);
      if x != id {
        assert Holders(streams', x) == Holders(streams, x);
      }
    }
    assert id !in used ==> Holders(streams, id) == {};
  }

  lemma HeldUsages(streams: Streams, blocks: Blocks, used: set<BlockId>, s: StreamId, id: BlockId, st: Stream,
      block: Block)
    requires used <= blocks.Keys && Usages(streams, blocks, used) && id in used
    requires s in streams && streams[s].block.None? && st.block == Some(id) && block.usage == blocks[id].usage + 1
    ensures Usages(streams[s := st], blocks[id := block], used)
  {
    MoreUsed(streams, blocks, used, s, id, st, block);
    assert used + {id} == used;
  }

  // A block that nobody holds any more is written if it is dirty, and its buffer is free.
  lemma WrittenBack(items: seq<Item>, b: nat, disk: map<nat, seq<Item>>, blocks: Blocks, used: set<BlockId>,
      id: BlockId)
    requires b >= 1 && Buffers(items, b, disk, blocks, used) && Stored(items, b, disk, blocks, used) && id in used
    ensures var block := blocks[id];
            var disk' := if block.dirty then disk[block.number := block.data[..block.size]] else disk;
            var blocks' := blocks[id := block.(usage := 0)];
            Buffers(items, b, disk', blocks', used - {id}) && Stored(items, b, disk', blocks', used - {id})
  {
    var block := blocks[id];
    var disk' := if block.dirty then disk[block.number := block.data[..block.size]] else disk;
    var blocks' := blocks[id := block.(usage := 0)];
    assert BufferOk(items, b, disk, block);
    forall x | x in used - {id} ensures BufferOk(items, b, disk', blocks'[x]) {
      assert BufferOk(items, b, disk, blocks[x]);
      assert blocks[x].number != block.number;
    }
    forall n: nat ensures Buffered(blocks', used - {id}, n) || PartOnDisk(items, b, disk', n) {
      if Buffered(blocks, used, n) {
        var x :| x in used && blocks[x].number == n;
        if x != id {
          assert x in used - {id} && blocks'[x].number == n;
        }
      } else {
        assert PartOnDisk(items, b, disk, n);
      }
    }
  }

  // A free buffer filled from disk is a buffer in use.
  lemma Fetched(items: seq<Item>, b: nat, disk: map<nat, seq<Item>>, blocks: Blocks, used: set<BlockId>, id: BlockId,
      block: Block)
    requires Buffers(items, b, disk, blocks, used) && Stored(items, b, disk, blocks, used) && id !in used
    requires !Buffered(blocks, used, block.number) && BufferOk(items, b, disk, block)
    ensures Buffers(items, b, disk, blocks[id := block], used + {id})
      && Stored(items, b, disk, blocks[id := block], used + {id})
  {
    var blocks', used' := blocks[id := block], used + {id};
    forall x | x in used' ensures BufferOk(items, b, disk, blocks'[x])
      && (blocks'[x].number == block.number ==> x == id) {
      if x != id {
        assert BufferOk(items, b, disk, blocks[x]);
      }
    }
    forall n: nat ensures Buffered(blocks', used', n) || PartOnDisk(items, b, disk, n) {
      if Buffered(blocks, used, n) {
        var x :| x in used && blocks[x].number == n;
        assert x in used' && blocks'[x].number == n;
      } else {
        assert PartOnDisk(items, b, disk, n);
      }
    }
  }

  // Changing how many hold a buffer changes nothing else.
  lemma SameBuffers(items: seq<Item>, b: nat, disk: map<nat, seq<Item>>, blocks: Blocks, used: set<BlockId>,
      id: BlockId, usage: nat)
    requires Buffers(items, b, disk, blocks, used) && Stored(items, b, disk, blocks, used) && id in used
    ensures var blocks' := blocks[id := blocks[id].(usage := usage)];
            Buffers(items, b, disk, blocks', used) && Stored(items, b, disk, blocks', used)
  {
    var blocks' := blocks[id := blocks[id].(usage := usage)];
    forall x | x in used ensures BufferOk(items, b, disk, blocks'[x]) {
      assert BufferOk(items, b, disk, blocks[x]);
    }
    forall n: nat ensures Buffered(blocks', used, n) || PartOnDisk(items, b, disk, n) {
      if Buffered(blocks, used, n) {
        var x :| x in used && blocks[x].number == n;
        assert blocks'[x].number == n;
      } else {
        assert PartOnDisk(items, b, disk, n);
      }
    }
  }

  // ---------- The file

  class FileBase {
    const blockItems: nat
    var size: nat
    var disk: map<nat, seq<Item>>
    var blocks: Blocks
    var used: set<BlockId>
    var free: set<BlockId>
    var nextId: nat
    var streams: Streams
    ghost var contents: seq<Item>

    // The buffers, the disk and the plain array agree, and every buffer is accounted for.
    ghost predicate Core()
      reads this
    {
      && 1 <= blockItems < MAX_INDEX && size == |contents|
      && Lists(streams, blocks, used, free, nextId) && Usages(streams, blocks, used)
      && Buffers(contents, blockItems, disk, blocks, used) && Stored(contents, blockItems, disk, blocks, used)
    }

    ghost predicate Valid()
      reads this
    {
      Core() && StreamsOk(streams, size, blockItems, blocks)
    }

    // All streams but s are in order.
    ghost predicate ValidBut(s: StreamId)
      reads this
    {
      Core() && s in streams && OthersOk(streams, s, size, blockItems, blocks)
    }

    constructor (blockItems: nat)
      requires 1 <= blockItems < MAX_INDEX
      ensures Valid() && contents == [] && streams == map[] && this.blockItems == blockItems
    {
      this.blockItems := blockItems;
      size, disk, blocks, used, free, nextId := 0, map[], map[], {}, {}, 0;
      streams, contents := map[], [];
    }

    method FindBlock(n: nat) returns (r: Option<BlockId>)
      requires used <= blocks.Keys
      ensures r.Some? ==> r.value in used && blocks[r.value].number == n
      ensures r.None? ==> !Buffered(blocks, used, n)
    {
      var rest := used;
      while rest != {}
        invariant rest <= used
        invariant forall id :: id in used - rest ==> blocks[id].number != n
      {
        var id :| id in rest;
        if blocks[id].number == n {
          return Some(id);
        }
        rest := rest - {id};
      }
      return None;
    }

    // The stream gives up its block; the last one to do so writes it back.
    method FreeBlock(s: StreamId)
      requires ValidBut(s) && streams[s].block.Some?
      modifies this`disk, this`blocks, this`used, this`free, this`streams
      ensures ValidBut(s) && streams == old(streams)[s := old(streams)[s].(block := None)]
    {
      hide Buffers, Stored, Usages, OthersOk, Lists, SameShape;
      BufferOfStream(streams, blocks, used, free, nextId, s);
      var st := streams[s];
      var id := st.block.value;
      LessUsed(streams, blocks, used, s, id, st.(block := None));
      var block := blocks[id];
      HeldLists(streams, blocks, used, free, nextId, s, st.(block := None), id, block.(usage := block.usage - 1));
      FreedLists(streams, blocks, used, free, nextId, s, st.(block := None), id, block.(usage := block.usage - 1));
      SameShapeAfter(blocks, used, id, block.usage - 1);
      OthersDropped(streams, s, st.(block := None), size, blockItems, blocks,
          blocks[id := block.(usage := block.usage - 1)], used);
      if block.usage > 1 {
        SameBuffers(contents, blockItems, disk, blocks, used, id, block.usage - 1);
      } else {
        WrittenBack(contents, blockItems, disk, blocks, used, id);
        if block.dirty {
          WithinData(contents, blockItems, disk, blocks, used, id);
          disk := disk[block.number := block.data[..block.size]];
        }
        used := used - {id};
        free := free + {id};
      }
      blocks := blocks[id := block.(usage := block.usage - 1)];
      streams := streams[s := st.(block := None)];
    }

    // read_block: block n of the disk, clipped to the size of the file.
    method ReadBlock(n: nat) returns (block: Block)
      requires blockItems >= 1 && size == |contents| && n * blockItems <= size
      requires used <= blocks.Keys && Stored(contents, blockItems, disk, blocks, used) && !Buffered(blocks, used, n)
      ensures block.number == n && block.usage == 0 && BufferOk(contents, blockItems, disk, block)
    {
      hide BufferOk, Stored, Buffered;
      var length := blockItems;
      if length + n * blockItems > size {
        length := size - n * blockItems;
      }
      FetchedIsPart(contents, blockItems, disk, blocks, used, n, length);
      var data := (if length > 0 then disk[n] else []) + seq(blockItems - length, _ => Item(0, 0));
      assert data[..length] == if length > 0 then disk[n] else [];
      block := Block(length, 0, n, false, data);
    }

    // get_block for stream s: block n is found among the buffers in use, or fetched into a free one.
    method GetBlock(s: StreamId, n: nat) returns (ok: bool)
      requires ValidBut(s) && streams[s].block.None?
      modifies this`blocks, this`used, this`free, this`streams
      ensures ok <==> n * blockItems <= size
      ensures !ok ==> unchanged(this)
      ensures ok ==> ValidBut(s)
      ensures ok ==> exists id ::
        && id in used && id in blocks && blocks[id].number == n
        && streams == old(streams)[s := old(streams)[s].(block := Some(id))]
    {
      hide Buffers, Stored, Usages, OthersOk, Lists, SameShape, Buffered, BufferOk;
      if n * blockItems > size {
        return false;
      }
      UsedAreBlocks(streams, blocks, used, free, nextId);
      var r := FindBlock(n);
      if r.Some? {
        HoldBlock(s, r.value);
      } else {
        FetchBlock(s, n);
      }
      return true;
    }

    method HoldBlock(s: StreamId, id: BlockId)
      requires ValidBut(s) && streams[s].block.None? && id in used && id in blocks
      modifies this`blocks, this`streams
      ensures ValidBut(s) && blocks == old(blocks[id := OneMore(blocks[id])])
      ensures streams == old(streams)[s := old(streams)[s].(block := Some(id))]
    {
      hide Buffers, Stored, Usages, OthersOk, Lists;
      Held(contents, blockItems, disk, streams, blocks, used, free, nextId, s, id);
      streams := streams[s := streams[s].(block := Some(id))];
      blocks := blocks[id := OneMore(blocks[id])];
    }

    // A free buffer is filled with block n, and the stream is its first user.
    method FetchBlock(s: StreamId, n: nat)
      requires ValidBut(s) && streams[s].block.None? && n * blockItems <= size
      requires used <= blocks.Keys && !Buffered(blocks, used, n)
      modifies this`blocks, this`used, this`free, this`streams
      ensures ValidBut(s)
      ensures exists id ::
        && id in used && id in blocks && blocks[id].number == n
        && streams == old(streams)[s := old(streams)[s].(block := Some(id))]
    {
      hide Buffers, Stored, Usages, OthersOk, Lists, SameShape, Buffered, BufferOk;
      SomethingFree(streams, blocks, used, free, nextId, s);
      var id :| id in free;
      var block := ReadBlock(n);
      block := block.(usage := 1);
      var st := streams[s].(block := Some(id));
      Counted(contents, blockItems, disk, block, 1);
      FilledLists(streams, blocks, used, free, nextId, s, st, id, block);
      MoreUsed(streams, blocks, used, s, id, st, block);
      Fetched(contents, blockItems, disk, blocks, used, id, block);
      SameShapeElsewhere(blocks, used, id, block);
      OthersDropped(streams, s, st, size, blockItems, blocks, blocks[id := block], used);
      blocks := blocks[id := block];
      free := free - {id};
      used := used + {id};
      streams := streams[s := st];
    }

    // Gives stream s another position; its block stays.
    method SetStream(s: StreamId, st: Stream)
      requires ValidBut(s) && st.block == streams[s].block && StreamOk(st, size, blockItems, blocks)
      modifies this`streams
      ensures Valid() && OnlyStream(old(streams), streams, s) && streams[s] == st
    {
      hide Buffers, Stored, Usages, OthersOk, Lists, StreamOk;
      SameHolders(streams, blocks, used, free, nextId, s, st);
      AllOk(streams, s, st, size, blockItems, blocks);
      streams := streams[s := st];
    }

    /** update_block moves the stream to its goal, or leaves it on the empty block beyond the end. */
    method UpdateBlock(s: StreamId) returns (ok: bool)
      requires Valid() && s in streams
      modifies this`disk, this`blocks, this`used, this`free, this`streams
      ensures Valid() && OnlyStream(old(streams), streams, s)
      ensures ok <==> old(Goal(streams[s], blocks).block) * blockItems <= size
      ensures ok ==> At(streams[s], old(Goal(streams[s], blocks)), blockItems, blocks) && streams[s].block.value in used
      ensures !ok ==> streams[s] == old(streams[s].(block := None, next := Some(Goal(streams[s], blocks))))
    {
      hide Buffers, Stored, Usages, OthersOk, Lists, StreamOk, SameShape, Buffered, BufferOk;
      OneAndOthers(streams, s, size, blockItems, blocks);
      BlockSize(streams, contents, blockItems, disk, blocks, used, s);
      var st := streams[s];
      var goal := Goal(st, blocks);
      ghost var before := blocks;
      GoalFits(st, size, blockItems, blocks);
      if st.block.Some? {
        FreeBlock(s);
      }
      ok := GetBlock(s, goal.block);
      if !ok {
        LostOk(st, size, blockItems, goal, before, blocks);
        SetStream(s, st.(block := None, next := Some(goal)));
        return false;
      }
      Arrive(s, goal);
    }

    // The stream has the block it was told to go to.
    method Arrive(s: StreamId, goal: Target)
      requires ValidBut(s) && streams[s].block.Some? && streams[s].block.value in used
      requires streams[s].block.value in blocks && blocks[streams[s].block.value].number == goal.block
      requires goal.index < blockItems && goal.block * blockItems + goal.index <= size
      modifies this`streams
      ensures Valid() && OnlyStream(old(streams), streams, s)
      ensures At(streams[s], goal, blockItems, blocks) && streams[s].block.value in used
    {
      hide Buffers, Stored, Usages, OthersOk, Lists, StreamOk;
      var id := streams[s].block.value;
      SizeOfPart(contents, blockItems, disk, blocks, used, id);
      ArrivedOk(id, goal, size, blockItems, blocks);
      SetStream(s, Stream(Some(id), goal.index, goal.block * blockItems, None));
    }

    // The item goes into the block of the stream, and write_update follows.
    method PutInBlock(s: StreamId, x: Item)
      requires Valid() && s in streams && streams[s].next.None? && streams[s].index < blockItems
      modifies this`blocks, this`streams, this`size, this`contents
      ensures old(Offset(s)) <= old(size)
      ensures Valid() && OnlyStream(old(streams), streams, s)
      ensures contents == Put(old(contents), old(Offset(s)), x)
      ensures Offset(s) == old(Offset(s)) + 1 && streams[s].next.None?
    {
      hide StreamsOk, Buffers, Stored, Usages, Lists, StreamOk, Put;
      PutKeepsAll(contents, size, blockItems, disk, streams, blocks, used, free, nextId, s, x);
      var st := streams[s];
      var id := st.block.value;
      UsedAreBlocks(streams, blocks, used, free, nextId);
      contents := Put(contents, st.index + st.start, x);
      blocks := blocks[id := Written(blocks[id], st.index, x)];
      streams := streams[s := st.(index := st.index + 1)];
      size := if size < st.index + st.start + 1 then st.index + st.start + 1 else size;
    }

    // Fetches the next block when the current one is full.
    method MakeRoom(s: StreamId)
      requires Valid() && s in streams && !Stranded(streams[s])
      modifies this`disk, this`blocks, this`used, this`free, this`streams
      ensures Valid() && OnlyStream(old(streams), streams, s)
      ensures Offset(s) == old(Offset(s)) <= size && streams[s].next.None? && streams[s].index < blockItems
    {
      hide Core, StreamsOk, StreamOk, BlockFits, OffsetOf, At, Goal;
      StandsOk(s);
      BeforeWrite(streams[s], size, blockItems, blocks);
      if streams[s].index >= blockItems {
        ghost var goal := Goal(streams[s], blocks);
        var ok := UpdateBlock(s);
        assert ok;
        Arrived(streams[s], goal, blockItems, blocks);
      }
    }

    /** Writes an item at the offset of a stream that is not stranded, in the middle or at the end of the file. */
    method Write(s: StreamId, x: Item)
      requires Valid() && s in streams && !Stranded(streams[s])
      modifies this
      ensures old(Offset(s)) <= old(size)
      ensures Valid() && OnlyStream(old(streams), streams, s)
      ensures contents == Put(old(contents), old(Offset(s)), x)
      ensures |contents| == if old(Offset(s)) < old(|contents|) then old(|contents|) else old(|contents|) + 1
      ensures contents[old(Offset(s))] == x
      ensures forall k :: 0 <= k < old(|contents|) && k != old(Offset(s)) ==> contents[k] == old(contents)[k]
      ensures Offset(s) == old(Offset(s)) + 1 && streams[s].next.None?
    {
      hide Core, StreamsOk, Put;
      MakeRoom(s);
      SizeOfContents();
      PutAt(contents, Offset(s), x);
      PutInBlock(s, x);
    }

    // ---------- What a stream offers

    function Offset(s: StreamId): nat
      requires s in streams
      reads this`streams
    {
      OffsetOf(streams[s], blockItems)
    }

    // The stream stands at the end of a last block that is not full.
    predicate AtPartialEnd(s: StreamId)
      requires s in streams
      reads this`streams, this`blocks
    {
      InPartialEnd(streams[s], blockItems, blocks)
    }

    lemma StandsOk(s: StreamId)
      requires Valid() && s in streams
      ensures StreamOk(streams[s], size, blockItems, blocks) && BlockFits(streams[s], size, blockItems, blocks)
        && 1 <= blockItems < MAX_INDEX
    {
      BlockSize(streams, contents, blockItems, disk, blocks, used, s);
    }

    lemma InPlace(s: StreamId)
      requires Valid() && s in streams
      ensures var st := streams[s];
              && (st.next.None? ==>
                    && st.block.Some? && st.block.value in used && st.block.value in blocks
                    && var block := blocks[st.block.value];
                    && st.start == block.number * blockItems
                    && st.index <= block.size == |Part(contents, blockItems, block.number)|
                    && |block.data| == blockItems
                    && block.data[..block.size] == Part(contents, blockItems, block.number)
                    && block.number * blockItems <= size)
              && (st.next.Some? && !Stranded(st) ==> Offset(s) <= size)
              && (Stranded(st) ==> st.block.None? && st.next.value.index == 0)
              && (st.block.Some? ==> st.block.value in blocks && st.block.value in used)
    {
      var st := streams[s];
      assert StreamOk(st, size, blockItems, blocks);
      if st.block.Some? {
        assert BufferOk(contents, blockItems, disk, blocks[st.block.value]);
      }
    }

    method Locate(offset: nat) returns (b: nat, index: nat)
      requires blockItems >= 1
      ensures index < blockItems && b * blockItems + index == offset
    {
      b := offset / blockItems;
      index := offset - b * blockItems;
      Remainder(offset, blockItems);
    }

    /** Moves the stream to an offset in the file; it fails, and changes nothing, beyond the end. */
    method Seek(s: StreamId, offset: nat) returns (ok: bool)
      requires Valid() && s in streams
      modifies this`streams
      ensures Valid() && OnlyStream(old(streams), streams, s)
      ensures ok <==> offset <= size
      ensures ok ==> Offset(s) == offset && !Stranded(streams[s]) && streams[s].block == old(streams[s].block)
      ensures !ok ==> unchanged(this)
    {
      hide Buffers, Stored, Usages, OthersOk, StreamsOk, Lists, StreamOk, Sought, OffsetOf, Stranded;
      OneAndOthers(streams, s, size, blockItems, blocks);
      BlockSize(streams, contents, blockItems, disk, blocks, used, s);
      if offset > size {
        return false;
      }
      var st := streams[s];
      var b, index := Locate(offset);
      var same := st.block.Some? && blocks[st.block.value].number == b;
      SoughtOk(st, b, index, size, blockItems, blocks);
      SetStream(s, Sought(st, same, b, index));
      return true;
    }

    /** can_read holds exactly when the offset is inside the file. */
    method CanRead(s: StreamId) returns (can: bool)
      requires Valid() && s in streams
      ensures can <==> Offset(s) < size
    {
      InPlace(s);
      var st := streams[s];
      if st.index < BlockSizeOf(st, blocks) {
        assert st.next.None?;
        return true;
      }
      return Offset(s) < size;
    }


    // The next item of a stream that has one in its block.
    method Take(s: StreamId) returns (x: Item)
      requires Valid() && s in streams && streams[s].next.None? && streams[s].index < BlockSizeOf(streams[s], blocks)
      modifies this`streams
      ensures Valid() && OnlyStream(old(streams), streams, s)
      ensures old(Offset(s)) < size && x == contents[old(Offset(s))] && Offset(s) == old(Offset(s)) + 1
      ensures !Stranded(streams[s])
    {
      hide Buffers, Stored, Usages, OthersOk, StreamsOk, Lists;
      InPlace(s);
      OneAndOthers(streams, s, size, blockItems, blocks);
      var st := streams[s];
      var block := blocks[st.block.value];
      PartAt(contents, blockItems, block.number, st.index);
      x := block.data[st.index];
      assert x == block.data[..block.size][st.index];
      SetStream(s, st.(index := st.index + 1));
    }

    // Sees to it that an item that is left is in the block of the stream.
    method Prepare(s: StreamId) returns (ok: bool)
      requires Valid() && s in streams
      modifies this`disk, this`blocks, this`used, this`free, this`streams
      ensures Valid() && OnlyStream(old(streams), streams, s)
      ensures ok <==> old(Offset(s)) < size
      ensures ok ==>
        && Offset(s) == old(Offset(s))
        && streams[s].next.None? && streams[s].index < BlockSizeOf(streams[s], blocks)
      ensures !ok ==> (Offset(s) == old(Offset(s)) <==> !old(AtPartialEnd(s)))
      ensures !ok && old(AtPartialEnd(s)) ==> Stranded(streams[s]) && Offset(s) > size
    {
      hide Core, StreamsOk, StreamOk, BlockFits;
      StandsOk(s);
      BeforeRead(streams[s], size, blockItems, blocks);
      if streams[s].index >= BlockSizeOf(streams[s], blocks) {
        ghost var goal := Goal(streams[s], blocks);
        ok := UpdateBlock(s);
        if !ok {
          return false;
        }
        Arrived(streams[s], goal, blockItems, blocks);
        if Offset(s) >= size {
          return false;
        }
        StandsOk(s);
        AfterUpdate(streams[s], size, blockItems, blocks);
      }
      return true;
    }

    /** The item at the offset; None, the end-of-stream exception, exactly when the offset is not inside the file. */
    method Read(s: StreamId) returns (r: Option<Item>)
      requires Valid() && s in streams
      modifies this`disk, this`blocks, this`used, this`free, this`streams
      ensures Valid() && OnlyStream(old(streams), streams, s)
      ensures r.Some? <==> old(Offset(s)) < size
      ensures r.Some? ==>
        && r.value == contents[old(Offset(s))]
        && Offset(s) == old(Offset(s)) + 1 && !Stranded(streams[s])
      ensures r.None? ==> (Offset(s) == old(Offset(s)) <==> !old(AtPartialEnd(s)))
      ensures r.None? && old(AtPartialEnd(s)) ==> Stranded(streams[s]) && Offset(s) > size
    {
      hide Core, StreamsOk;
      var ok := Prepare(s);
      if !ok {
        return None;
      }
      var x := Take(s);
      return Some(x);
    }

    /** A read loses the place of exactly those streams that are at the end of the file in a block that is not full. */
    lemma PartialEndIff(s: StreamId)
      requires Valid() && s in streams
      ensures AtPartialEnd(s) <==> streams[s].next.None? && Offset(s) == size && streams[s].index < blockItems
      ensures streams[s].next.None? && Offset(s) == size && size % blockItems != 0 ==> AtPartialEnd(s)
    {
      StandsOk(s);
      PartialEnd(streams[s], size, blockItems, blocks);
    }

    // ---------- Attaching and detaching

    /** A new stream comes with a buffer of its own, and stands at the beginning. */
    method Attach(s: StreamId)
      requires Valid()
      modifies this`disk, this`blocks, this`used, this`free, this`nextId, this`streams
      ensures Valid() && s in streams && Offset(s) == 0 && !Stranded(streams[s]) && streams[s].block.None?
      ensures streams == old(streams)[s := streams[s]]
    {
      hide Buffers, Stored, Usages, StreamsOk, Lists;
      Detach(s);
      CreateKeepsAll(contents, blockItems, disk, streams, blocks, used, free, nextId, s);
      blocks := blocks[nextId := Block(0, 0, 0, false, [])];
      free := free + {nextId};
      nextId := nextId + 1;
      streams := streams[s := Stream(None, MAX_INDEX, 0, Some(Target(0, 0)))];
    }

    /** A stream gives up its block and its buffer; the array stays as it is. */
    method Detach(s: StreamId)
      requires Valid()
      modifies this`disk, this`blocks, this`used, this`free, this`streams
      ensures Valid() && streams == old(streams) - {s}
    {
      hide Buffers, Stored, Usages, StreamsOk, Lists, OthersOk;
      if s !in streams {
        return;
      }
      OneAndOthers(streams, s, size, blockItems, blocks);
      if streams[s].block.Some? {
        FreeBlock(s);
      }
      SomethingFree(streams, blocks, used, free, nextId, s);
      var id :| id in free;
      DeleteKeepsAll(contents, blockItems, disk, streams, blocks, used, free, nextId, s, id);
      free := free - {id};
      blocks := blocks - {id};
      streams := streams - {s};
    }

    lemma SizeOfContents()
      requires Valid()
      ensures size == |contents|
    {
    }

    lemma NothingHeld()
      requires Valid() && forall s :: s in streams ==> streams[s].block.None?
      ensures used == {}
    {
      forall id ensures id !in used {
        assert Holders(streams, id) == {};
      }
    }

    /**
     * Cuts or grows the file; it fails while any block is in use, and relies on no stream having sought beyond the new
     * end.
     */
    method Truncate(n: nat) returns (ok: bool)
      requires Valid()
      modifies this`size, this`disk, this`contents
      ensures ok <==> used == {}
      ensures !ok ==> unchanged(this)
      ensures ok ==> Core() && size == n && contents == Resized(old(contents), n)
      ensures ok ==> |contents| == n && forall k :: 0 <= k < Min(n, old(size)) ==> contents[k] == old(contents)[k]
      ensures ok ==> (Valid() <==> NoneBeyond(streams, n, blockItems))
    {
      if used != {} {
        return false;
      }
      TruncateKeepsAll(contents, blockItems, disk, streams, blocks, n);
      disk := ResizedDisk(disk, blockItems, size, n);
      size := n;
      contents := Resized(contents, n);
      return true;
    }

    /** When no stream is attached, every buffer has been written back and the disk alone is the array. */
    lemma NothingIsLeftBehind()
      requires Valid() && streams == map[]
      ensures used == {} && free == {}
      ensures forall n: nat :: PartOnDisk(contents, blockItems, disk, n)
    {
      forall n: nat ensures PartOnDisk(contents, blockItems, disk, n) {
        assert !Buffered(blocks, used, n);
      }
    }
  }

  function BlockSizeOf(st: Stream, blocks: Blocks): nat {
    if st.block.Some? && st.block.value in blocks then blocks[st.block.value].size else 0
  }

  predicate InPartialEnd(st: Stream, b: nat, blocks: Blocks) {
    st.next.None? && st.block.Some? && BlockSizeOf(st, blocks) <= st.index < b
  }

  ghost predicate BlockFits(st: Stream, size: nat, b: nat, blocks: Blocks) {
    st.block.Some? ==>
      var id := st.block.value;
      id in blocks && blocks[id].number * b <= size && blocks[id].size == Min(b, size - blocks[id].number * b)
  }

  // What decides whether a read finds an item.
  lemma BeforeRead(st: Stream, size: nat, b: nat, blocks: Blocks)
    requires StreamOk(st, size, b, blocks) && BlockFits(st, size, b, blocks) && 1 <= b < MAX_INDEX
    ensures st.index < BlockSizeOf(st, blocks) ==>
      st.next.None? && OffsetOf(st, b) < size && !InPartialEnd(st, b, blocks)
    ensures st.index >= BlockSizeOf(st, blocks) ==>
      var goal := Goal(st, blocks);
      && (if InPartialEnd(st, b, blocks) then
            && goal.block * b > size && st.index != MAX_INDEX
            && OffsetOf(st, b) == size && goal.index == 0
          else
            goal.index + goal.block * b == OffsetOf(st, b))
  {
    if st.next.None? {
      MulNext(blocks[st.block.value].number, b);
    }
  }

  lemma BeforeWrite(st: Stream, size: nat, b: nat, blocks: Blocks)
    requires StreamOk(st, size, b, blocks) && BlockFits(st, size, b, blocks) && 1 <= b < MAX_INDEX
    requires !Stranded(st)
    ensures OffsetOf(st, b) <= size && (st.index < b ==> st.next.None?)
    ensures st.index >= b ==>
            var goal := Goal(st, blocks);
            goal.block * b <= size && goal.index < b && goal.index + goal.block * b == OffsetOf(st, b) <= size
  {
    if st.next.None? {
      MulNext(blocks[st.block.value].number, b);
    }
  }

  lemma AfterUpdate(st: Stream, size: nat, b: nat, blocks: Blocks)
    requires StreamOk(st, size, b, blocks) && BlockFits(st, size, b, blocks) && st.next.None?
    requires st.index < b && OffsetOf(st, b) < size
    ensures st.index < BlockSizeOf(st, blocks)
  {
  }

  // Nothing but the position and the block of stream s has changed.
  ghost predicate OnlyStream(before: Streams, after: Streams, s: StreamId) {
    s in before && s in after && after == before[s := after[s]]
  }

  // An item put at index i of a block in use.
  function Written(block: Block, i: nat, x: Item): Block
    requires i < |block.data|
  {
    block.(data := block.data[i := x], dirty := true, size := if block.size < i + 1 then i + 1 else block.size)
  }

  lemma WrittenOk(items: seq<Item>, b: nat, disk: map<nat, seq<Item>>, block: Block, i: nat, offset: nat, x: Item)
    requires BufferOk(items, b, disk, block) && i < b && i <= block.size && offset == block.number * b + i
    ensures offset <= |items|
    ensures BufferOk(Put(items, offset, x), b, disk, Written(block, i, x))
  {
    PutHere(items, b, block.number, i, offset, x);
    var data', size' := block.data[i := x], Written(block, i, x).size;
    assert data'[..size'] == Put(block.data[..block.size], i, x);
  }

  lemma OtherBufferOk(items: seq<Item>, b: nat, disk: map<nat, seq<Item>>, block: Block, n: nat, i: nat, offset: nat,
      x: Item)
    requires BufferOk(items, b, disk, block) && block.number != n
    requires i < b && offset == n * b + i && offset <= |items|
    ensures BufferOk(Put(items, offset, x), b, disk, block)
  {
    hide Part;
    PutElsewhere(items, b, n, i, offset, x, block.number);
    assert |Put(items, offset, x)| >= |items|;
  }

  lemma OtherOnDisk(items: seq<Item>, b: nat, disk: map<nat, seq<Item>>, n: nat, i: nat, offset: nat, x: Item, m: nat)
    requires PartOnDisk(items, b, disk, m) && m != n
    requires i < b && offset == n * b + i && offset <= |items|
    ensures PartOnDisk(Put(items, offset, x), b, disk, m)
  {
    hide Part;
    PutElsewhere(items, b, n, i, offset, x, m);
    if n < m {
      MulNext(n, b);
      MulMonotone(n + 1, m, b);
    }
  }

  lemma PutBuffers(items: seq<Item>, b: nat, disk: map<nat, seq<Item>>, blocks: Blocks, used: set<BlockId>,
                   id: BlockId, i: nat, offset: nat, x: Item)
    requires Buffers(items, b, disk, blocks, used) && Stored(items, b, disk, blocks, used) && id in used
    requires i < b && i <= blocks[id].size && |blocks[id].data| == b && offset == blocks[id].number * b + i
    ensures offset <= |items|
    ensures var items', blocks' := Put(items, offset, x), blocks[id := Written(blocks[id], i, x)];
            Buffers(items', b, disk, blocks', used) && Stored(items', b, disk, blocks', used)
  {
    hide PartOnDisk, BufferOk, Put;
    var n := blocks[id].number;
    WrittenOk(items, b, disk, blocks[id], i, offset, x);
    var items', blocks' := Put(items, offset, x), blocks[id := Written(blocks[id], i, x)];
    forall y | y in used ensures BufferOk(items', b, disk, blocks'[y]) {
      if y != id {
        OtherBufferOk(items, b, disk, blocks[y], n, i, offset, x);
      }
    }
    forall m: nat ensures Buffered(blocks', used, m) || PartOnDisk(items', b, disk, m) {
      if m == n {
        assert blocks'[id].number == n;
      } else if Buffered(blocks, used, m) {
        var y :| y in used && blocks[y].number == m;
        assert blocks'[y].number == m;
      } else {
        OtherOnDisk(items, b, disk, n, i, offset, x, m);
      }
    }
  }

  // When a block and the file grow, all streams still stand where they stood.
  lemma GrownOk(streams: Streams, size: nat, size': nat, b: nat, blocks: Blocks, id: BlockId, block: Block)
    requires StreamsOk(streams, size, b, blocks) && size <= size' && id in blocks
    requires block.number == blocks[id].number && block.size >= blocks[id].size
    ensures StreamsOk(streams, size', b, blocks[id := block])
  {
    forall s | s in streams ensures StreamOk(streams[s], size', b, blocks[id := block]) {
      assert StreamOk(streams[s], size, b, blocks);
    }
  }

  // All that a write changes, at once.
  lemma PutKeepsAll(items: seq<Item>, size: nat, b: nat, disk: map<nat, seq<Item>>, streams: Streams, blocks: Blocks,
      used: set<BlockId>,
                    free: set<BlockId>, nextId: nat, s: StreamId, x: Item)
    requires Lists(streams, blocks, used, free, nextId) && Usages(streams, blocks, used)
    requires Buffers(items, b, disk, blocks, used) && Stored(items, b, disk, blocks, used)
    requires size == |items| && StreamsOk(streams, size, b, blocks)
    requires s in streams && streams[s].next.None? && streams[s].index < b
    ensures streams[s].block.Some? && streams[s].block.value in blocks && |blocks[streams[s].block.value].data| == b
    ensures OffsetOf(streams[s], b) <= size
    ensures var st := streams[s];
            var id, items' := st.block.value, Put(items, st.index + st.start, x);
            var streams', blocks' := streams[s := st.(index := st.index + 1)],
              blocks[id := Written(blocks[id], st.index, x)];
            && |items'| == (if size < st.index + st.start + 1 then st.index + st.start + 1 else size)
            && Lists(streams', blocks', used, free, nextId) && Usages(streams', blocks', used)
            && Buffers(items', b, disk, blocks', used) && Stored(items', b, disk, blocks', used)
            && StreamsOk(streams', |items'|, b, blocks')
  {
    hide Lists, Usages, Buffers, Stored, StreamsOk, OthersOk;
    var st := streams[s];
    UsedAreBlocks(streams, blocks, used, free, nextId);
    OneAndOthers(streams, s, size, b, blocks);
    BlockSize(streams, items, b, disk, blocks, used, s);
    WithinData(items, b, disk, blocks, used, st.block.value);
    PutBuffers(items, b, disk, blocks, used, st.block.value, st.index, st.index + st.start, x);
    PutStreams(size, b, streams, blocks, used, free, nextId, s, Written(blocks[st.block.value], st.index, x),
               |Put(items, st.index + st.start, x)|);
  }

  lemma PutStreams(size: nat, b: nat, streams: Streams, blocks: Blocks, used: set<BlockId>, free: set<BlockId>,
      nextId: nat,
                   s: StreamId, block: Block, size': nat)
    requires Lists(streams, blocks, used, free, nextId) && Usages(streams, blocks, used)
      && StreamsOk(streams, size, b, blocks)
    requires s in streams && streams[s].next.None? && streams[s].block.Some? && streams[s].block.value in used
      && used <= blocks.Keys
    requires var old' := blocks[streams[s].block.value];
             block.number == old'.number && block.usage == old'.usage && block.size >= old'.size
    requires size <= size' && streams[s].index + 1 <= block.size
    ensures var streams', blocks' := streams[s := streams[s].(index := streams[s].index + 1)],
      blocks[streams[s].block.value := block];
            && Lists(streams', blocks', used, free, nextId) && Usages(streams', blocks', used)
            && StreamsOk(streams', size', b, blocks')
  {
    hide StreamsOk, Usages, Lists, OthersOk;
    var st := streams[s];
    var id, st' := st.block.value, st.(index := st.index + 1);
    GrownOk(streams, size, size', b, blocks, id, block);
    WrittenUsages(streams, blocks, used, free, nextId, id, block);
    SameHolders(streams, blocks[id := block], used, free, nextId, s, st');
    OneAndOthers(streams, s, size', b, blocks[id := block]);
    AllOk(streams, s, st', size', b, blocks[id := block]);
  }

  lemma WrittenUsages(streams: Streams, blocks: Blocks, used: set<BlockId>, free: set<BlockId>, nextId: nat,
      id: BlockId, block: Block)
    requires Lists(streams, blocks, used, free, nextId) && Usages(streams, blocks, used)
    requires id in used && block.usage == blocks[id].usage
    ensures Lists(streams, blocks[id := block], used, free, nextId) && Usages(streams, blocks[id := block], used)
  {
  }

  // The block a stream moves to: the one it was told to seek, or the one after its own.
  function Goal(st: Stream, blocks: Blocks): Target {
    if st.next.Some? then st.next.value
    else if st.block.Some? && st.block.value in blocks then Target(blocks[st.block.value].number + 1, 0)
    else Target(0, 0)
  }

  ghost predicate At(st: Stream, goal: Target, b: nat, blocks: Blocks) {
    && st == Stream(st.block, goal.index, goal.block * b, None)
    && st.block.Some? && st.block.value in blocks && blocks[st.block.value].number == goal.block
  }

  lemma Arrived(st: Stream, goal: Target, b: nat, blocks: Blocks)
    requires At(st, goal, b, blocks)
    ensures OffsetOf(st, b) == goal.index + goal.block * b && st.next.None? && st.index == goal.index
  {
  }

  lemma BlockSize(streams: Streams, items: seq<Item>, b: nat, disk: map<nat, seq<Item>>, blocks: Blocks,
      used: set<BlockId>, s: StreamId)
    requires Buffers(items, b, disk, blocks, used) && Usages(streams, blocks, used) && s in streams
    ensures streams[s].block.Some? ==>
      var id := streams[s].block.value;
      && id in used && id in blocks && blocks[id].number * b <= |items|
      && blocks[id].size == Min(b, |items| - blocks[id].number * b)
  {
    if streams[s].block.Some? {
      SizeOfPart(items, b, disk, blocks, used, streams[s].block.value);
    }
  }

  lemma SoughtOk(st: Stream, n: nat, index: nat, size: nat, b: nat, blocks: Blocks)
    requires StreamOk(st, size, b, blocks) && index < b && n * b + index <= size
    requires st.block.Some? ==>
      var id := st.block.value; id in blocks && blocks[id].size == Min(b, size - blocks[id].number * b)
    ensures var st' := Sought(st, st.block.Some? && blocks[st.block.value].number == n, n, index);
            StreamOk(st', size, b, blocks) && OffsetOf(st', b) == n * b + index && !Stranded(st')
              && st'.block == st.block
  {
  }

  // Inside its own block the stream moves at once, and to another block before the next access.
  function Sought(st: Stream, same: bool, n: nat, index: nat): Stream {
    if same then st.(index := index, next := None) else st.(index := MAX_INDEX, next := Some(Target(n, index)))
  }

  // A goal inside the file is inside its block.
  lemma GoalFits(st: Stream, size: nat, b: nat, blocks: Blocks)
    requires StreamOk(st, size, b, blocks) && b >= 1
    ensures var goal := Goal(st, blocks);
      goal.index < b && (goal.block * b <= size ==> goal.block * b + goal.index <= size)
    ensures st.next.Some? && !Stranded(st) ==> Goal(st, blocks).block * b <= size
  {
  }

  lemma ArrivedOk(id: BlockId, goal: Target, size: nat, b: nat, blocks: Blocks)
    requires id in blocks && blocks[id].number == goal.block && goal.index < b && goal.block * b + goal.index <= size
    requires blocks[id].size == Min(b, size - goal.block * b)
    ensures StreamOk(Stream(Some(id), goal.index, goal.block * b, None), size, b, blocks)
  {
  }

  lemma LostOk(st: Stream, size: nat, b: nat, goal: Target, blocks: Blocks, after: Blocks)
    requires StreamOk(st, size, b, blocks) && 1 <= b < MAX_INDEX && goal == Goal(st, blocks) && goal.block * b > size
    requires st.block.Some? ==> st.block.value in blocks && blocks[st.block.value].size <= b
    ensures StreamOk(st.(block := None, next := Some(goal)), size, b, after)
  {
  }

  lemma OneAndOthers(streams: Streams, s: StreamId, size: nat, b: nat, blocks: Blocks)
    requires StreamsOk(streams, size, b, blocks) && s in streams
    ensures StreamOk(streams[s], size, b, blocks) && OthersOk(streams, s, size, b, blocks)
  {
  }

  lemma AllOk(streams: Streams, s: StreamId, st: Stream, size: nat, b: nat, blocks: Blocks)
    requires StreamOk(st, size, b, blocks) && OthersOk(streams, s, size, b, blocks)
    ensures StreamsOk(streams[s := st], size, b, blocks)
  {
  }

  lemma SameHolders(streams: Streams, blocks: Blocks, used: set<BlockId>, free: set<BlockId>, nextId: nat, s: StreamId,
      st: Stream)
    requires Lists(streams, blocks, used, free, nextId) && Usages(streams, blocks, used)
    requires s in streams && st.block == streams[s].block
    ensures Lists(streams[s := st], blocks, used, free, nextId) && Usages(streams[s := st], blocks, used)
  {
    SameLists(streams, blocks, used, free, nextId, s, st);
    forall id ensures Holders(streams[s := st], id) == Holders(streams, id) {
    }
    hide Lists, Holders;
  }

  lemma SameLists(streams: Streams, blocks: Blocks, used: set<BlockId>, free: set<BlockId>, nextId: nat, s: StreamId,
      st: Stream)
    requires Lists(streams, blocks, used, free, nextId) && s in streams
    ensures Lists(streams[s := st], blocks, used, free, nextId)
  {
    assert (streams[s := st]).Keys == streams.Keys;
    assert |streams[s := st]| == |streams|;
  }

  lemma SizeOfPart(items: seq<Item>, b: nat, disk: map<nat, seq<Item>>, blocks: Blocks, used: set<BlockId>, id: BlockId)
    requires Buffers(items, b, disk, blocks, used) && id in used
    ensures var n := blocks[id].number; n * b <= |items| && blocks[id].size == Min(b, |items| - n * b)
  {
    assert BufferOk(items, b, disk, blocks[id]);
  }

  function OneMore(block: Block): Block {
    block.(usage := block.usage + 1)
  }

  lemma Held(items: seq<Item>, b: nat, disk: map<nat, seq<Item>>, streams: Streams, blocks: Blocks, used: set<BlockId>,
             free: set<BlockId>, nextId: nat, s: StreamId, id: BlockId)
    requires Lists(streams, blocks, used, free, nextId) && Usages(streams, blocks, used)
    requires Buffers(items, b, disk, blocks, used) && Stored(items, b, disk, blocks, used)
    requires s in streams && streams[s].block.None? && OthersOk(streams, s, |items|, b, blocks) && id in used
    ensures id in blocks
    ensures var streams', blocks' := streams[s := streams[s].(block := Some(id))], blocks[id := OneMore(blocks[id])];
            && Lists(streams', blocks', used, free, nextId) && Usages(streams', blocks', used)
            && Buffers(items, b, disk, blocks', used) && Stored(items, b, disk, blocks', used)
            && OthersOk(streams', s, |items|, b, blocks')
  {
    UsedAreBlocks(streams, blocks, used, free, nextId);
    hide Buffers, Stored, Usages, OthersOk, Lists, SameShape;
    var st, usage := streams[s].(block := Some(id)), blocks[id].usage + 1;
    HeldUsages(streams, blocks, used, s, id, st, OneMore(blocks[id]));
    HeldLists(streams, blocks, used, free, nextId, s, st, id, OneMore(blocks[id]));
    SameShapeAfter(blocks, used, id, usage);
    SameBuffers(items, b, disk, blocks, used, id, usage);
    OthersDropped(streams, s, st, |items|, b, blocks, blocks[id := OneMore(blocks[id])], used);
  }

  lemma UsedAreBlocks(streams: Streams, blocks: Blocks, used: set<BlockId>, free: set<BlockId>, nextId: nat)
    requires Lists(streams, blocks, used, free, nextId)
    ensures used <= blocks.Keys
  {
  }

  lemma Counted(items: seq<Item>, b: nat, disk: map<nat, seq<Item>>, block: Block, usage: nat)
    requires BufferOk(items, b, disk, block.(usage := 0))
    ensures BufferOk(items, b, disk, block.(usage := usage))
  {
  }

  lemma SameShapeElsewhere(blocks: Blocks, used: set<BlockId>, id: BlockId, block: Block)
    requires used <= blocks.Keys && id !in used
    ensures SameShape(blocks, blocks[id := block], used)
  {
  }

  lemma PartialEnd(st: Stream, size: nat, b: nat, blocks: Blocks)
    requires StreamOk(st, size, b, blocks) && BlockFits(st, size, b, blocks) && b >= 1
    ensures InPartialEnd(st, b, blocks) <==> st.next.None? && OffsetOf(st, b) == size && st.index < b
    ensures st.next.None? && OffsetOf(st, b) == size && st.index == b ==> size % b == 0
    ensures st.next.None? ==> st.index <= b
  {
    if st.next.None? && st.index == b {
      var n := blocks[st.block.value].number;
      MulNext(n, b);
      DivUnique(n * b + b, b, n + 1, 0);
    }
  }

  /** One stream writes two items and goes back to the first to write another; a second stream reads what it wrote. */
  method ReadsWhatWasWritten(a: Item, b: Item, c: Item) returns (first: Option<Item>, second: Option<Item>)
    ensures first == Some(c) && second == Some(b)
  {
    hide Buffers, Stored, Lists, StreamsOk, Usages, Put, FileBase.Valid, FileBase.Core;
    var f := new FileBase(2);
    f.SizeOfContents();
    f.Attach(0);
    f.SizeOfContents();
    f.Write(0, a);
    f.SizeOfContents();
    f.Write(0, b);
    f.SizeOfContents();
    var ok := f.Seek(0, 0);
    f.Write(0, c);
    f.SizeOfContents();
    f.Attach(1);
    f.SizeOfContents();
    first := f.Read(1);
    f.SizeOfContents();
    second := f.Read(1);
  }

  /** One stream has sought to the end without fetching a block, and the file is cut off before it. */
  method TruncatedBelow(x: Item) returns (ok: bool, offset: nat, size: nat)
    ensures ok && offset > size
  {
    hide Buffers, Stored, Lists, StreamsOk, Usages, Put;
    var f := new FileBase(2);
    f.Attach(0);
    f.Write(0, x);
    f.Attach(1);
    WrittenFirst(x);
    ok := f.Seek(1, 1);
    f.Detach(0);
    f.NothingHeld();
    ok := f.Truncate(0);
    return ok, f.Offset(1), f.size;
  }

  lemma WrittenFirst(x: Item)
    ensures Put([], 0, x) == [x]
  {
  }

  /** Reading at the end of a file of one item, right after writing it, leaves the stream beyond the end. */
  method ReadingPastTheEnd(x: Item) returns (offset: nat, size: nat)
    ensures offset > size
  {
    var f := new FileBase(2);
    f.Attach(0);
    f.Write(0, x);
    f.PartialEndIff(0);
    var r := f.Read(0);
    return f.Offset(0), f.size;
  }

  // ---------- Truncating

  // The first n items, or all of them and zeros behind.
  function Resized(items: seq<Item>, n: nat): (r: seq<Item>)
    ensures |r| == n
  {
    if n <= |items| then items[..n] else items + seq(n - |items|, _ => Item(0, 0))
  }

  // The disk cut or grown to n items, when all of the file is on it.
  function ResizedDisk(disk: map<nat, seq<Item>>, b: nat, size: nat, n: nat): map<nat, seq<Item>>
    requires b >= 1
  {
    map k: nat | k < n && k * b < n :: Resized(if k in disk && k * b < size then disk[k] else [], Min(b, n - k * b))
  }

  lemma PartResized(items: seq<Item>, b: nat, n: nat, k: nat)
    requires b >= 1 && k * b < n
    ensures Part(Resized(items, n), b, k) == Resized(Part(items, b, k), Min(b, n - k * b))
  {
    var one, other := Part(Resized(items, n), b, k), Resized(Part(items, b, k), Min(b, n - k * b));
    forall i | 0 <= i < |one| ensures one[i] == other[i] {
      assert one[i] == Resized(items, n)[k * b + i];
    }
  }

  lemma TruncatedOnDisk(items: seq<Item>, b: nat, disk: map<nat, seq<Item>>, n: nat, k: nat)
    requires b >= 1 && PartOnDisk(items, b, disk, k)
    ensures PartOnDisk(Resized(items, n), b, ResizedDisk(disk, b, |items|, n), k)
  {
    if k * b < n {
      MulMonotone(1, b, k);
      PartResized(items, b, n, k);
    }
  }

  ghost predicate NoneBeyond(streams: Streams, n: nat, b: nat) {
    forall s :: s in streams && !Stranded(streams[s]) ==> OffsetOf(streams[s], b) <= n
  }

  lemma TruncateKeepsAll(items: seq<Item>, b: nat, disk: map<nat, seq<Item>>, streams: Streams, blocks: Blocks, n: nat)
    requires b >= 1 && Usages(streams, blocks, {}) && StreamsOk(streams, |items|, b, blocks)
    requires Stored(items, b, disk, blocks, {})
    ensures StreamsOk(streams, n, b, blocks) <==> NoneBeyond(streams, n, b)
    ensures Stored(Resized(items, n), b, ResizedDisk(disk, b, |items|, n), blocks, {})
  {
    forall k: nat ensures PartOnDisk(Resized(items, n), b, ResizedDisk(disk, b, |items|, n), k) {
      assert !Buffered(blocks, {}, k);
      assert PartOnDisk(items, b, disk, k);
      TruncatedOnDisk(items, b, disk, n, k);
    }
    forall s | s in streams
      ensures StreamOk(streams[s], n, b, blocks) <==> Stranded(streams[s]) || OffsetOf(streams[s], b) <= n
    {
      assert StreamOk(streams[s], |items|, b, blocks);
    }
  }

  // Changing the buffers nobody uses changes nothing else.
  lemma SameUsed(items: seq<Item>, b: nat, disk: map<nat, seq<Item>>, streams: Streams, before: Blocks, after: Blocks,
      used: set<BlockId>)
    requires used <= before.Keys && used <= after.Keys && forall id :: id in used ==> after[id] == before[id]
    requires Buffers(items, b, disk, before, used) && Stored(items, b, disk, before, used)
      && Usages(streams, before, used)
    ensures Buffers(items, b, disk, after, used) && Stored(items, b, disk, after, used) && Usages(streams, after, used)
  {
    forall n: nat ensures Buffered(after, used, n) || PartOnDisk(items, b, disk, n) {
      if Buffered(before, used, n) {
        var x :| x in used && before[x].number == n;
        assert after[x].number == n;
      } else {
        assert PartOnDisk(items, b, disk, n);
      }
    }
  }

  lemma StreamsSameUsed(streams: Streams, size: nat, b: nat, before: Blocks, after: Blocks, used: set<BlockId>)
    requires used <= before.Keys && used <= after.Keys && forall id :: id in used ==> after[id] == before[id]
    requires Usages(streams, before, used)
    ensures forall s :: s in streams && StreamOk(streams[s], size, b, before) ==> StreamOk(streams[s], size, b, after)
  {
  }

  lemma CreateKeepsAll(items: seq<Item>, b: nat, disk: map<nat, seq<Item>>, streams: Streams, blocks: Blocks,
      used: set<BlockId>,
                       free: set<BlockId>, nextId: nat, s: StreamId)
    requires Lists(streams, blocks, used, free, nextId) && Usages(streams, blocks, used)
    requires Buffers(items, b, disk, blocks, used) && Stored(items, b, disk, blocks, used)
    requires s !in streams && StreamsOk(streams, |items|, b, blocks) && b >= 1
    ensures var streams' := streams[s := Stream(None, MAX_INDEX, 0, Some(Target(0, 0)))];
            var blocks' := blocks[nextId := Block(0, 0, 0, false, [])];
            && Lists(streams', blocks', used, free + {nextId}, nextId + 1) && Usages(streams', blocks', used)
            && Buffers(items, b, disk, blocks', used) && Stored(items, b, disk, blocks', used)
            && StreamsOk(streams', |items|, b, blocks')
  {
    hide Lists, Usages, Buffers, Stored, StreamsOk, StreamOk, Holders;
    var st := Stream(None, MAX_INDEX, 0, Some(Target(0, 0)));
    var streams', blocks' := streams[s := st], blocks[nextId := Block(0, 0, 0, false, [])];
    CreatedLists(streams, blocks, used, free, nextId, s, st, blocks'[nextId]);
    SameUsed(items, b, disk, streams, blocks, blocks', used);
    AddedHolds(streams, s, st, blocks', used);
    StreamsSameUsed(streams, |items|, b, blocks, blocks', used);
    NewStreamOk(streams, s, |items|, b, blocks, blocks');
  }

  lemma CreatedLists(streams: Streams, blocks: Blocks, used: set<BlockId>, free: set<BlockId>, nextId: nat,
      s: StreamId, st: Stream, block: Block)
    requires Lists(streams, blocks, used, free, nextId) && s !in streams
    ensures Lists(streams[s := st], blocks[nextId := block], used, free + {nextId}, nextId + 1)
    ensures nextId !in blocks && used <= blocks.Keys
  {
    OneKeyMore(streams, s, st);
    assert nextId !in blocks;
    assert nextId !in used && nextId !in free;
    var blocks', free' := blocks[nextId := block], free + {nextId};
    assert |free'| == |free| + 1;
    assert used !! free';
    assert blocks'.Keys == blocks.Keys + {nextId};
    assert used + free' == (used + free) + {nextId};
  }

  lemma OneKeyMore<K, V>(m: map<K, V>, k: K, v: V)
    requires k !in m
    ensures |m[k := v]| == |m| + 1
  {
    assert (m[k := v]).Keys == m.Keys + {k};
    assert |(m[k := v]).Keys| == |m[k := v]|;
  }

  lemma AddedHolds(streams: Streams, s: StreamId, st: Stream, blocks: Blocks, used: set<BlockId>)
    requires used <= blocks.Keys && Usages(streams, blocks, used) && s !in streams && st.block.None?
    ensures Usages(streams[s := st], blocks, used)
  {
    forall id ensures Holders(streams[s := st], id) == Holders(streams, id) {
    }
  }

  lemma NewStreamOk(streams: Streams, s: StreamId, size: nat, b: nat, before: Blocks, after: Blocks)
    requires StreamsOk(streams, size, b, before) && b >= 1
    requires forall s :: s in streams && StreamOk(streams[s], size, b, before) ==> StreamOk(streams[s], size, b, after)
    ensures StreamsOk(streams[s := Stream(None, MAX_INDEX, 0, Some(Target(0, 0)))], size, b, after)
  {
  }

  lemma DeleteKeepsAll(items: seq<Item>, b: nat, disk: map<nat, seq<Item>>, streams: Streams, blocks: Blocks,
      used: set<BlockId>,
                       free: set<BlockId>, nextId: nat, s: StreamId, id: BlockId)
    requires Lists(streams, blocks, used, free, nextId) && Usages(streams, blocks, used)
    requires Buffers(items, b, disk, blocks, used) && Stored(items, b, disk, blocks, used)
    requires s in streams && streams[s].block.None? && OthersOk(streams, s, |items|, b, blocks) && id in free
    ensures var streams', blocks' := streams - {s}, blocks - {id};
            && Lists(streams', blocks', used, free - {id}, nextId) && Usages(streams', blocks', used)
            && Buffers(items, b, disk, blocks', used) && Stored(items, b, disk, blocks', used)
            && StreamsOk(streams', |items|, b, blocks')
  {
    hide Lists, Usages, Buffers, Stored, StreamsOk, StreamOk, Holders, OthersOk;
    var streams', blocks' := streams - {s}, blocks - {id};
    DeletedLists(streams, blocks, used, free, nextId, s, id);
    SameUsed(items, b, disk, streams, blocks, blocks', used);
    RemovedHolds(streams, s, blocks', used);
    StreamsSameUsed(streams, |items|, b, blocks, blocks', used);
    WithoutStreamOk(streams, s, |items|, b, blocks, blocks');
  }

  lemma DeletedLists(streams: Streams, blocks: Blocks, used: set<BlockId>, free: set<BlockId>, nextId: nat,
      s: StreamId, id: BlockId)
    requires Lists(streams, blocks, used, free, nextId) && s in streams && id in free
    ensures Lists(streams - {s}, blocks - {id}, used, free - {id}, nextId)
    ensures id !in used && used <= blocks.Keys
  {
    assert (streams - {s}).Keys == streams.Keys - {s};
    assert |streams - {s}| == |streams| - 1;
  }

  lemma RemovedHolds(streams: Streams, s: StreamId, blocks: Blocks, used: set<BlockId>)
    requires used <= blocks.Keys && Usages(streams, blocks, used) && s in streams && streams[s].block.None?
    ensures Usages(streams - {s}, blocks, used)
  {
    forall id ensures Holders(streams - {s}, id) == Holders(streams, id) {
    }
  }

  lemma WithoutStreamOk(streams: Streams, s: StreamId, size: nat, b: nat, before: Blocks, after: Blocks)
    requires OthersOk(streams, s, size, b, before)
    requires forall s :: s in streams && StreamOk(streams[s], size, b, before) ==> StreamOk(streams[s], size, b, after)
    ensures StreamsOk(streams - {s}, size, b, after)
  {
  }

  lemma BufferOfStream(streams: Streams, blocks: Blocks, used: set<BlockId>, free: set<BlockId>, nextId: nat,
      s: StreamId)
    requires Lists(streams, blocks, used, free, nextId) && Usages(streams, blocks, used)
    requires s in streams && streams[s].block.Some?
    ensures streams[s].block.value in used && streams[s].block.value in blocks && used <= blocks.Keys
  {
  }

  lemma FreedLists(streams: Streams, blocks: Blocks, used: set<BlockId>, free: set<BlockId>, nextId: nat, s: StreamId,
      st: Stream, id: BlockId, block: Block)
    requires Lists(streams, blocks, used, free, nextId) && s in streams && id in used
    ensures Lists(streams[s := st], blocks[id := block], used - {id}, free + {id}, nextId)
  {
    assert (streams[s := st]).Keys == streams.Keys;
    assert |streams[s := st]| == |streams|;
  }

  lemma HeldLists(streams: Streams, blocks: Blocks, used: set<BlockId>, free: set<BlockId>, nextId: nat, s: StreamId,
      st: Stream, id: BlockId, block: Block)
    requires Lists(streams, blocks, used, free, nextId) && s in streams && id in used
    ensures Lists(streams[s := st], blocks[id := block], used, free, nextId)
  {
    assert (streams[s := st]).Keys == streams.Keys;
    assert |streams[s := st]| == |streams|;
  }

  lemma FilledLists(streams: Streams, blocks: Blocks, used: set<BlockId>, free: set<BlockId>, nextId: nat, s: StreamId,
      st: Stream, id: BlockId, block: Block)
    requires Lists(streams, blocks, used, free, nextId) && s in streams && id in free
    ensures id in blocks && id !in used
      && Lists(streams[s := st], blocks[id := block], used + {id}, free - {id}, nextId)
  {
    assert (streams[s := st]).Keys == streams.Keys;
    assert |streams[s := st]| == |streams|;
  }

  // What is read from disk into a free buffer.
  lemma FetchedIsPart(items: seq<Item>, b: nat, disk: map<nat, seq<Item>>, blocks: Blocks, used: set<BlockId>, n: nat,
      length: nat)
    requires b >= 1 && used <= blocks.Keys && Stored(items, b, disk, blocks, used) && !Buffered(blocks, used, n)
    requires n * b <= |items| && length == Min(b, |items| - n * b)
    ensures length > 0 ==> n in disk && |disk[n]| == length
    ensures forall usage, data :: |data| == b && data[..length] == (if length > 0 then disk[n] else []) ==>
      BufferOk(items, b, disk, Block(length, usage, n, false, data))
  {
    assert PartOnDisk(items, b, disk, n);
  }

  lemma SameShapeAfter(blocks: Blocks, used: set<BlockId>, id: BlockId, usage: nat)
    requires used <= blocks.Keys && id in used
    ensures SameShape(blocks, blocks[id := blocks[id].(usage := usage)], used)
  {
  }

  lemma WithinData(items: seq<Item>, b: nat, disk: map<nat, seq<Item>>, blocks: Blocks, used: set<BlockId>, id: BlockId)
    requires Buffers(items, b, disk, blocks, used) && id in used
    ensures blocks[id].size <= |blocks[id].data| == b
  {
    assert BufferOk(items, b, disk, blocks[id]);
  }

  lemma OthersDropped(streams: Streams, s: StreamId, st: Stream, size: nat, b: nat, before: Blocks, after: Blocks,
      used: set<BlockId>)
    requires used <= before.Keys && Usages(streams, before, used)
    requires OthersOk(streams, s, size, b, before) && SameShape(before, after, used)
    ensures OthersOk(streams[s := st], s, size, b, after)
  {
  }
}
