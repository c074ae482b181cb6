/** The file allocation table as the file system keeps it: one list of entries replaced in place. */
module FatTable {
  import opened Bytes
  import opened Fat

  /** An FCB: the size of the file and its first block, -1 when it has none. */
  class ControlBlock {
    var size: nat
    var initialBlock: int

    constructor ()
      ensures size == 0 && initialBlock == -1
    {
      size, initialBlock := 0, -1;
    }
  }

  class FileAllocationTable {
    const entries: array<int>
    const blockSize: nat

    constructor (count: nat, blockSize: nat)
      requires 0 < count <= END && blockSize > 0
      ensures fresh(entries) && this.blockSize == blockSize && WellFormed(entries[..], map[])
      ensures |FreeBlocks(entries[..])| == count - 1
    {
      var fat := new int[count](_ => 0);
      entries := fat;
      this.blockSize := blockSize;
      new;
      Accounted(entries[..], map[]);
      assert |FreeBlocks(entries[..])| + TotalLength(map[]) == count - 1;
    }

    /** list_replace. */
    method Replace(i: int, v: int)
      modifies entries
      ensures entries[..] == Replaced(old(entries[..]), i, v)
    {
      if 0 <= i < entries.Length {
        entries[i] := v;
      }
    }

    /** find_free_block, and find_free_current_block when the current block is 0; -1 if there is none. */
    method FindFreeBlock(current: int) returns (b: int)
      ensures match FindFree(entries[..], current, 1)
        case None => b == -1
        case Some(k) => b == k
    {
      b := 1;
      while b < entries.Length
        invariant 1 <= b && FindFree(entries[..], current, b) == FindFree(entries[..], current, 1)
      {
        if entries[b] == 0 && current != b {
          return;
        }
        b := b + 1;
      }
      b := -1;
    }

    /** assign_block_size. */
    method AssignBlockSize(size: nat) returns (first: int)
      requires blockSize > 0
      modifies entries
      ensures match old(Assign(entries[..], size, blockSize))
        case None => first == -1 && entries[..] == old(entries[..])
        case Some(r) => r.chain != [] && first == r.chain[0] && entries[..] == r.fat
    {
      var current := FindFreeBlock(0);
      first := current;
      var needed := BlocksFor(size, blockSize);
      var taken := 0;
      if current == -1 {
        return;
      }
      while taken < needed
        invariant 0 <= taken <= needed && 0 < current < entries.Length
        invariant Grow(entries[..], current, needed - taken).fat ==
          old(Grow(entries[..], FindFree(entries[..], 0, 1).value, needed).fat)
      {
        var free := FindFreeBlock(current);
        if free == -1 {
          break;
        }
        entries[current] := free;
        current := free;
        taken := taken + 1;
      }
      entries[current] := END;
    }

    /** find_last_block: along the chain c that starts at the block, no block twice. */
    method FindLastBlock(initial: int, ghost c: seq<nat>) returns (last: int)
      requires IsChain(entries[..], c) && c[0] == initial && entries.Length <= END
      ensures last == Last(c)
    {
      var current := initial;
      last := current;
      ghost var k := 0;
      while current != END
        invariant 0 <= k <= |c|
        invariant current == if k < |c| then c[k] else END
        invariant last == if k == 0 then c[0] else c[k - 1]
        decreases |c| - k
      {
        last := current;
        current := entries[current];
        k := k + 1;
      }
    }

    /** add_blocks. */
    method AddBlocks(initial: int, additional: int, ghost c: seq<nat>)
      requires IsChain(entries[..], c) && c[0] == initial && entries.Length <= END
      modifies entries
      ensures entries[..] == old(Grow(entries[..], Last(c), additional).fat)
    {
      var last := FindLastBlock(initial, c);
      var added := 0;
      while added < additional
        invariant 0 <= added && (additional >= 0 ==> added <= additional) && 0 < last < entries.Length
        invariant Grow(entries[..], last, additional - added).fat == old(Grow(entries[..], Last(c), additional).fat)
      {
        var free := FindFreeBlock(last);
        if free == -1 {
          break;
        }
        entries[last] := free;
        last := free;
        added := added + 1;
      }
      entries[last] := END;
    }

    /** recorrer_blocks: exactly the blocks of the chain, in order. */
    method RecorrerBlocks(initial: int, ghost c: seq<nat>) returns (blocks: seq<nat>)
      requires IsChain(entries[..], c) && c[0] == initial && entries.Length <= END
      ensures blocks == c
    {
      blocks := [initial];
      var next := entries[initial];
      while next != END
        invariant 0 < |blocks| <= |c| && blocks == c[..|blocks|]
        invariant next == if |blocks| < |c| then c[|blocks|] else END
        decreases |c| - |blocks|
      {
        blocks := blocks + [next];
        next := entries[next];
      }
    }

    /** free_blocks, from the last block of the chain backwards. */
    method FreeBehind(initial: int, needed: nat, ghost c: seq<nat>)
      requires IsChain(entries[..], c) && c[0] == initial && entries.Length <= END
      modifies entries
      ensures entries[..] == old(Shrink(entries[..], c, needed))
    {
      var blocks := RecorrerBlocks(initial, c);
      var i := |blocks| - 1;
      while i > needed
        invariant -1 <= i < |blocks| && if |blocks| > needed then i >= needed else i == |blocks| - 1
        invariant entries[..] == Zeroed(old(entries[..]), c, i + 1)
      {
        Replace(blocks[i], 0);
        i := i - 1;
      }
      ZeroedBeyond(old(entries[..]), c, i + 1, needed + 1);
      Replace(needed + 1, END);
    }

    /** truncate_file. */
    method TruncateFile(fcb: ControlBlock, newSize: nat, ghost c: seq<nat>)
      requires blockSize > 0 && entries.Length <= END
      requires fcb.size > 0 ==> IsChain(entries[..], c) && c[0] == fcb.initialBlock
      modifies entries, fcb
      ensures fcb.size == newSize
      ensures old(fcb.size) == 0 && newSize > 0 ==>
        match old(Assign(entries[..], newSize, blockSize))
        case None => fcb.initialBlock == -1 && entries[..] == old(entries[..])
        case Some(r) => r.chain != [] && fcb.initialBlock == r.chain[0] && entries[..] == r.fat
      ensures 0 < old(fcb.size) < newSize ==>
        fcb.initialBlock == old(fcb.initialBlock) &&
        entries[..] == old(Grow(entries[..], Last(c), Asked(blockSize, fcb.size, newSize)).fat)
      ensures newSize < old(fcb.size) ==>
        fcb.initialBlock == old(fcb.initialBlock) && entries[..] == old(Shrink(entries[..], c, newSize / blockSize + 1))
      ensures newSize == old(fcb.size) ==> fcb.initialBlock == old(fcb.initialBlock) && entries[..] == old(entries[..])
    {
      if fcb.size == newSize {
        return;
      }
      if fcb.size == 0 {
        fcb.initialBlock := AssignBlockSize(newSize);
      } else if fcb.size < newSize {
        var currentSize := fcb.size / blockSize + 1;
        var newBlockCount := newSize / blockSize + 1;
        AddBlocks(fcb.initialBlock, newBlockCount - currentSize - 1, c);
      } else {
        FreeBehind(fcb.initialBlock, newSize / blockSize + 1, c);
      }
      fcb.size := newSize;
    }
  }

  lemma {:induction false} ZeroedBeyond(fat: Table, c: seq<nat>, i: nat, k: nat)
    requires i == k || (i <= k && |c| <= i)
    ensures Zeroed(fat, c, i) == Zeroed(fat, c, k)
  {
  }
}
