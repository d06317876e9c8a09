/** The allocator of arena_allocator.h over heap objects: buffers are nodes
    of a singly linked list, the arena holds the first (begin) and the
    active (end) node, and each operation updates them in place. Every
    method is proved against the matching function of ArenaSpec. */
module ArenaAllocator {
  import opened ArenaSpec

  /** A buffer: a fixed capacity of chunks, how many of them are handed
      out, and the link to the next buffer of the chain. The chunk storage
      itself is not modelled; allocations are chunk offsets into it. */
  class Buffer {
    var next: Buffer?
    var chunkMaxCount: nat
    var chunkCurrentCount: nat

    /** buffer_new: an empty, unlinked buffer of the given capacity. */
    constructor (chunkCount: nat)
      ensures next == null
      ensures chunkMaxCount == chunkCount && chunkCurrentCount == 0
    {
      next := null;
      chunkMaxCount := chunkCount;
      chunkCurrentCount := 0;
    }

    ghost function View(): BufferView
      reads this
    {
      BufferView(chunkMaxCount, chunkCurrentCount)
    }
  }

  /** The views of a sequence of buffers, in order. */
  ghost function Views(bs: seq<Buffer>): (vs: seq<BufferView>)
    reads bs
  {
    seq(|bs|, i requires 0 <= i < |bs| reads bs => bs[i].View())
  }

  /** begin and end are both null on an empty chain, and otherwise its
      first and its last node; no node occurs twice. */
  ghost predicate ChainShape(begin: Buffer?, end: Buffer?, chain: seq<Buffer>) {
    && (begin == null <==> chain == [])
    && (end == null <==> chain == [])
    && (chain != [] ==> begin == chain[0] && end == chain[|chain| - 1])
    && (forall i, j :: 0 <= i < j < |chain| ==> chain[i] != chain[j])
  }

  /** Each node links to the next one, and the last one to null. */
  ghost predicate Linked(chain: seq<Buffer>)
    reads chain
  {
    && (forall i :: 0 <= i < |chain| - 1 ==> chain[i].next == chain[i + 1])
    && (chain != [] ==> chain[|chain| - 1].next == null)
  }

  /** Every count of every node is a size_t value. */
  ghost predicate Sized(chain: seq<Buffer>)
    reads chain
  {
    forall i :: 0 <= i < |chain| ==> IsSize(chain[i].chunkMaxCount) && IsSize(chain[i].chunkCurrentCount)
  }

  /** An arena: the chain of buffers from begin, allocating into end. */
  class Arena {
    var begin: Buffer?
    var end: Buffer?
    /** The buffers reachable from begin, in link order. */
    ghost var chain: seq<Buffer>

    /** begin == null exactly when end == null (the empty arena); otherwise
        begin is the first and end the last node of an acyclic chain, and
        every count is a size_t value. */
    ghost predicate Valid()
      reads this, chain
    {
      ChainShape(begin, end, chain) && Linked(chain) && Sized(chain)
    }

    /** The abstract value: capacity and fill count of each buffer, in order. */
    ghost function Buffers(): (bs: seq<BufferView>)
      reads this, chain
    {
      Views(chain)
    }

    /** A zero-initialised Arena: no buffers. */
    constructor ()
      ensures Valid()
      ensures begin == null && end == null && chain == []
    {
      begin := null;
      end := null;
      chain := [];
    }

    /** arena_alloc, as written. */
    method Alloc(sizeInBytes: nat) returns (buffer: Buffer, offset: nat)
      requires Valid() && IsSize(sizeInBytes)
      modifies this, end
      ensures Valid()
      ensures Buffers() == Allocate(old(Buffers()), sizeInBytes).buffers
      ensures offset == Allocate(old(Buffers()), sizeInBytes).at.offset
      ensures buffer == end && buffer == chain[Allocate(old(Buffers()), sizeInBytes).at.buffer]
      ensures old(end) != null ==> begin == old(begin) && end == old(end) && chain == old(chain)
      ensures old(end) == null ==> fresh(buffer) && begin == end && chain == [buffer]
    {
      var chunkCount := ChunkCount(sizeInBytes);
      if end == null {
        assert begin == null;
        var chunkMaxCount := DefaultChunkMaxCount;
        if chunkMaxCount < chunkCount {
          chunkMaxCount := chunkCount;
        }
        end := new Buffer(chunkMaxCount);
        begin := end;
        chain := [end];
      }
      offset := BumpEnd(chunkCount);
      buffer := end;
    }

    /** arena_alloc as its documentation describes it: when the active
        buffer lacks room, a new buffer is linked after it and becomes the
        active one, so every allocation stays inside its buffer. */
    method AllocChecked(sizeInBytes: nat) returns (buffer: Buffer, offset: nat)
      requires Valid() && Fits(Buffers()) && IsSize(sizeInBytes)
      modifies this, end
      ensures Valid() && Fits(Buffers())
      ensures Buffers() == AllocateChecked(old(Buffers()), sizeInBytes).buffers
      ensures offset == AllocateChecked(old(Buffers()), sizeInBytes).at.offset
      ensures buffer == end && buffer == chain[AllocateChecked(old(Buffers()), sizeInBytes).at.buffer]
      ensures chain[..|old(chain)|] == old(chain)
      ensures old(begin) != null ==> begin == old(begin)
      ensures |chain| == |old(chain)| + 1 ==> fresh(buffer)
    {
      var chunkCount := ChunksFor(sizeInBytes);
      ghost var start := WithRoom(Buffers(), chunkCount);
      if end == null || end.chunkMaxCount - end.chunkCurrentCount < chunkCount {
        var _ := LinkBuffer(NewBufferCapacity(chunkCount));
      }
      assert Buffers() == start;
      offset := BumpEnd(chunkCount);
      buffer := end;
    }

    /** Links a new, empty buffer of the given capacity after end and makes
        it the active buffer. */
    method LinkBuffer(capacity: nat) returns (grown: Buffer)
      requires Valid() && IsSize(capacity)
      modifies this, end
      ensures Valid() && fresh(grown)
      ensures end == grown && chain == old(chain) + [grown]
      ensures old(begin) != null ==> begin == old(begin)
      ensures Buffers() == old(Buffers()) + [BufferView(capacity, 0)]
    {
      grown := new Buffer(capacity);
      if end == null {
        begin := grown;
      } else {
        end.next := grown;
      }
      end := grown;
      chain := chain + [grown];
    }

    /** Hands out the active buffer's fill count and adds the chunks to it,
        in size_t. */
    method BumpEnd(chunkCount: nat) returns (offset: nat)
      requires Valid() && end != null && IsSize(chunkCount)
      modifies end
      ensures Valid()
      ensures offset == old(end.chunkCurrentCount)
      ensures Buffers() == BumpLast(old(Buffers()), chunkCount)
    {
      offset := end.chunkCurrentCount;
      end.chunkCurrentCount := AddSize(end.chunkCurrentCount, chunkCount);
    }

    /** arena_reset: walk the chain from begin and zero every fill count;
        links, capacities, begin and end stay as they are. */
    method Reset()
      requires Valid()
      modifies chain
      ensures Valid()
      ensures begin == old(begin) && end == old(end) && chain == old(chain)
      ensures Buffers() == ResetAll(old(Buffers()))
    {
      ghost var before := Buffers();
      var current := begin;
      ghost var i := 0;
      while current != null
        invariant 0 <= i <= |chain|
        invariant i < |chain| ==> current == chain[i]
        invariant i == |chain| <==> current == null
        invariant begin == old(begin) && end == old(end) && chain == old(chain)
        invariant Linked(chain)
        invariant Sized(chain)
        invariant forall j :: 0 <= j < |chain| ==> chain[j].chunkMaxCount == before[j].capacity
        invariant forall j :: 0 <= j < i ==> chain[j].chunkCurrentCount == 0
        invariant forall j :: i <= j < |chain| ==> chain[j].chunkCurrentCount == before[j].used
        decreases |chain| - i
      {
        current.chunkCurrentCount := 0;
        current := current.next;
        i := i + 1;
      }
      ghost var after := Buffers();
      assert forall j :: 0 <= j < |after| ==> after[j] == BufferView(before[j].capacity, 0);
      ResetAllIsPointwise(before, after);
    }

    /** arena_free, as written: returns the buffers handed to free(), in
        order. It needs a non-empty arena, and it leaks the last buffer. */
    method Free() returns (freed: seq<Buffer>)
      requires Valid() && begin != null
      modifies this
      ensures Valid() && begin == null && end == null && chain == []
      ensures freed == FreedAsWritten(old(chain))
    {
      var current := begin;
      freed := [];
      ghost var i := 0;
      while current.next != null
        invariant Valid()
        invariant 0 <= i < |chain|
        invariant current == chain[i]
        invariant i < |chain| - 1 ==> current.next == chain[i + 1]
        invariant freed == chain[..i]
        decreases |chain| - i
      {
        var nextBuffer := current.next;
        freed := freed + [current];
        current := nextBuffer;
        i := i + 1;
      }
      assert i == |chain| - 1;
      begin := null;
      end := null;
      chain := [];
    }

    /** arena_free with the traversal it needs: every buffer of the chain,
        the last one included, is handed to free(), and an empty arena is
        left as it is. */
    method FreeAll() returns (freed: seq<Buffer>)
      requires Valid()
      modifies this
      ensures Valid() && begin == null && end == null && chain == []
      ensures freed == old(chain)
    {
      var current := begin;
      freed := [];
      ghost var i := 0;
      while current != null
        invariant 0 <= i <= |chain|
        invariant i < |chain| ==> current == chain[i]
        invariant i == |chain| <==> current == null
        invariant freed == chain[..i]
        decreases |chain| - i
      {
        var nextBuffer := current.next;
        freed := freed + [current];
        current := nextBuffer;
        i := i + 1;
      }
      begin := null;
      end := null;
      chain := [];
    }
  }

  /** Two arena_alloc calls in a row on one arena: both land in the same
      buffer, and the second range starts where the first one ends. */
  method AllocTwice(arena: Arena, size1: nat, size2: nat)
      returns (buffer1: Buffer, offset1: nat, buffer2: Buffer, offset2: nat)
    requires arena.Valid() && IsSize(size1) && IsSize(size2)
    requires arena.end != null ==>
      arena.end.chunkCurrentCount + ChunkCount(size1) + ChunkCount(size2) <= SizeMax
    modifies arena, arena.end
    ensures arena.Valid()
    ensures buffer1 == buffer2 == arena.end
    ensures offset1 == old(if arena.end == null then 0 else arena.end.chunkCurrentCount)
    ensures offset2 == offset1 + ChunkCount(size1)
    ensures buffer2.chunkCurrentCount == offset2 + ChunkCount(size2)
  {
    ghost var before := arena.Buffers();
    buffer1, offset1 := arena.Alloc(size1);
    buffer2, offset2 := arena.Alloc(size2);
    SuccessiveAllocationsAdjacent(before, size1, size2);
  }
}
