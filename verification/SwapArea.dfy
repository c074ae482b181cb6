/** The swap half of the file system: one mapped byte array, cut into blocks. Each method is tied to the
    function of Paging that says what it does to the blocks. */
module SwapArea {
  import opened Bytes
  import opened Paging
  import opened PagingStructure
  import opened PagingInvariant

  /** The swap blocks seen as frames of a configuration with as many frames as there are blocks. */
  function AsFrames(c: Config): Config {
    c.(frameCount := c.swapCount)
  }

  lemma {:induction false} SameBase(c: Config, k: nat)
    ensures Base(AsFrames(c), k) == Base(c, k)
  {
    if k > 0 {
      SameBase(c, k - 1);
    }
  }

  function Block(c: Config, bytes: seq<Byte>, k: nat): (r: seq<Byte>)
    requires Base(c, c.swapCount) <= |bytes| && k < c.swapCount
    ensures |r| == c.pageSize
  {
    BaseBefore(c, k, c.swapCount);
    bytes[Base(c, k)..Base(c, k) + c.pageSize]
  }

  function Blocks(c: Config, bytes: seq<Byte>): (r: seq<seq<Byte>>)
    requires Base(c, c.swapCount) <= |bytes|
    ensures |r| == c.swapCount
  {
    seq(c.swapCount, k requires 0 <= k < c.swapCount => Block(c, bytes, k))
  }

  /** Writing a whole block replaces that block. */
  lemma WriteBlock(c: Config, bytes: seq<Byte>, k: nat, d: seq<Byte>)
    requires Base(c, c.swapCount) <= |bytes| && k < c.swapCount && |d| == c.pageSize
    ensures Base(c, k) + |d| <= |bytes|
    ensures Blocks(c, Splice(bytes, Base(c, k), d)) == Blocks(c, bytes)[k := d]
  {
    BaseBefore(c, k, c.swapCount);
    var after := Splice(bytes, Base(c, k), d);
    forall j | 0 <= j < c.swapCount ensures Block(c, after, j) == Blocks(c, bytes)[k := d][j] {
      BaseBefore(c, j, c.swapCount);
      if j == k {
        SpliceInside(bytes, Base(c, k), d, Base(c, k), Base(c, k) + c.pageSize);
        SpliceWhole(Block(c, bytes, k), d);
      } else {
        if j < k { BaseBefore(c, j, k); } else { BaseBefore(c, k, j); }
        SpliceOutside(bytes, Base(c, k), d, Base(c, j), Base(c, j) + c.pageSize);
      }
    }
  }

  /** memcpy. */
  method CopyInto(a: array<Byte>, off: nat, d: seq<Byte>)
    requires off + |d| <= a.Length
    modifies a
    ensures a[..] == Splice(old(a[..]), off, d)
  {
    for i := 0 to |d|
      invariant forall j :: 0 <= j < a.Length ==> a[j] == if off <= j < off + i then d[j - off] else old(a[j])
    {
      a[off + i] := d[i];
    }
    SpliceElements(old(a[..]), off, d);
    assert a[..] == Splice(old(a[..]), off, d);
  }

  /** Blocks already taken, followed by a reservation. */
  function Joined(blocks: seq<nat>, r: Reservation): Reservation {
    Reservation(r.swap, blocks + r.blocks)
  }

  lemma ReserveOne(swap: seq<seq<Byte>>, count: nat, blocks: seq<nat>, b: nat, size: nat)
    requires count > 0 && LowestBlank(swap, 0) == Some(b) && |swap[b]| == size
    ensures Joined(blocks, Reserve(swap, count)) == Joined(blocks + [b], Reserve(swap[b := Filled(size, 0)], count - 1))
  {
    var rest := Reserve(swap[b := Filled(size, 0)], count - 1);
    assert blocks + ([b] + rest.blocks) == blocks + [b] + rest.blocks;
  }

  lemma ReserveNoMore(swap: seq<seq<Byte>>, count: nat, blocks: seq<nat>)
    requires count == 0 || LowestBlank(swap, 0).None?
    ensures Joined(blocks, Reserve(swap, count)) == Reservation(swap, blocks)
  {
    assert blocks + [] == blocks;
  }

  /** The positions that name a block of the area. */
  function Existing(positions: seq<int>, blockCount: nat): (r: seq<nat>)
    ensures forall i :: 0 <= i < |r| ==> r[i] < blockCount
  {
    if positions == [] then []
    else
      var last := positions[|positions| - 1];
      Existing(positions[..|positions| - 1], blockCount) + if 0 <= last < blockCount then [last] else []
  }

  class SwapStore {
    const c: Config
    const blockMap: array<Byte>

    ghost predicate Valid() {
      c.pageSize > 0 && Base(c, c.swapCount) <= blockMap.Length
    }

    ghost function Contents(): (r: seq<seq<Byte>>)
      requires Valid()
      reads blockMap
      ensures |r| == c.swapCount
    {
      Blocks(c, blockMap[..])
    }

    /** The mapped file starts with every byte '0'. */
    constructor (c: Config)
      requires c.pageSize > 0
      ensures Valid() && this.c == c && fresh(blockMap)
      ensures forall b :: 0 <= b < c.swapCount ==> Blank(Contents()[b])
    {
      this.c := c;
      blockMap := new Byte[Base(c, c.swapCount)](_ => FREE_MARK);
      new;
      forall b | 0 <= b < c.swapCount ensures Blank(Block(c, blockMap[..], b)) {
        BaseBefore(c, b, c.swapCount);
      }
    }

    method IsFree(block: nat) returns (free: bool)
      requires Valid() && block < c.swapCount
      ensures free == Blank(Contents()[block])
    {
      BaseBefore(c, block, c.swapCount);
      ghost var content := Block(c, blockMap[..], block);
      for j := 0 to c.pageSize
        invariant forall i :: 0 <= i < j ==> content[i] == FREE_MARK
      {
        assert blockMap[Base(c, block) + j] == content[j];
        if blockMap[Base(c, block) + j] != FREE_MARK {
          return false;
        }
      }
      return true;
    }

    method FindFreeSwapBlock() returns (r: Option<nat>)
      requires Valid()
      ensures r == LowestBlank(Contents(), 0)
    {
      for i := 0 to c.swapCount
        invariant LowestBlank(Contents(), 0) == LowestBlank(Contents(), i)
      {
        var free := IsFree(i);
        if free {
          return Some(i);
        }
      }
      return None;
    }

    /** memset of one block. */
    method Fill(block: nat, b: Byte)
      requires Valid() && block < c.swapCount
      modifies blockMap
      ensures Contents() == old(Contents())[block := Filled(c.pageSize, b)]
    {
      BaseBefore(c, block, c.swapCount);
      WriteBlock(c, blockMap[..], block, Filled(c.pageSize, b));
      CopyInto(blockMap, Base(c, block), Filled(c.pageSize, b));
    }

    /** The answer to GET_SWAP_BLOCKS; none when more blocks are asked for than the area has. */
    method ReserveSwapBlocks(count: nat) returns (r: Option<seq<nat>>)
      requires Valid()
      modifies blockMap
      ensures count > c.swapCount ==> r.None? && Contents() == old(Contents())
      ensures count <= c.swapCount ==>
        r == Some(Reserve(old(Contents()), count).blocks) && Contents() == Reserve(old(Contents()), count).swap
    {
      if count > c.swapCount {
        return None;
      }
      var blocks: seq<nat> := [];
      ghost var start := Contents();
      assert [] + Reserve(start, count).blocks == Reserve(start, count).blocks;
      for i := 0 to count
        invariant Reserve(start, count) == Joined(blocks, Reserve(Contents(), count - i))
      {
        var free := FindFreeSwapBlock();
        if free.None? {
          ReserveNoMore(Contents(), count - i, blocks);
          return Some(blocks);
        }
        ReserveOne(Contents(), count - i, blocks, free.value, c.pageSize);
        Fill(free.value, 0);
        blocks := blocks + [free.value];
      }
      ReserveNoMore(Contents(), 0, blocks);
      return Some(blocks);
    }

    /** FREE_PAGES: indices outside the area are skipped. */
    method FreeSwapBlocks(positions: seq<int>)
      requires Valid()
      modifies blockMap
      ensures Contents() == FreeBlocks(old(Contents()), Existing(positions, c.swapCount))
    {
      ghost var start := Contents();
      for i := 0 to |positions|
        invariant Contents() == FreeBlocks(start, Existing(positions[..i], c.swapCount))
      {
        assert positions[..i + 1][..i] == positions[..i];
        if positions[i] < 0 || positions[i] >= c.swapCount {
          assert Existing(positions[..i + 1], c.swapCount) == Existing(positions[..i], c.swapCount);
          continue;
        }
        ghost var before := Existing(positions[..i], c.swapCount);
        assert (before + [positions[i]])[..|before|] == before;
        Fill(positions[i], FREE_MARK);
      }
      assert positions[..|positions|] == positions;
    }

    /** UPDATE_SWAP: a block outside the area is refused. */
    method WriteToSwapBlock(block: int, data: seq<Byte>)
      requires Valid() && |data| == c.pageSize
      modifies blockMap
      ensures Contents() == if 0 <= block < c.swapCount then old(Contents())[block := data] else old(Contents())
    {
      if block < 0 || block >= c.swapCount {
        return;
      }
      BaseBefore(c, block, c.swapCount);
      WriteBlock(c, blockMap[..], block, data);
      CopyInto(blockMap, Base(c, block), data);
    }

    /** GET_FROM_SWAP: a block outside the area gives nothing. */
    method ReadFromSwapBlock(block: int) returns (data: Option<seq<Byte>>)
      requires Valid()
      ensures data == if 0 <= block < c.swapCount then Some(Contents()[block]) else None
    {
      if block < 0 || block >= c.swapCount {
        return None;
      }
      BaseBefore(c, block, c.swapCount);
      var bytes := blockMap[Base(c, block)..Base(c, block) + c.pageSize];
      assert blockMap[..][Base(c, block)..Base(c, block) + c.pageSize] == bytes;
      return Some(bytes);
    }
  }
}
