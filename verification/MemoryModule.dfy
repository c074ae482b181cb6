/** The memory process itself: fields and arrays updated in place, each method tied to its step on a Memory value. */
module MemoryModule {
  import opened Bytes
  import opened Paging
  import opened PagingStructure
  import opened PagingInvariant
  import opened PagingRuns
  import opened SwapArea

  lemma {:induction false} AllExist(positions: seq<nat>, blockCount: nat)
    requires forall i :: 0 <= i < |positions| ==> positions[i] < blockCount
    ensures Existing(positions, blockCount) == positions
  {
    if positions != [] {
      AllExist(positions[..|positions| - 1], blockCount);
      assert positions == positions[..|positions| - 1] + [positions[|positions| - 1]];
    }
  }

  class MemoryProcess {
    const c: Config
    const frameTable: array<bool>
    const frames: array<Byte>
    const store: SwapStore
    var sizes: map<Pid, nat>
    var pages: map<PageId, Entry>
    var order: seq<PageId>
    var pending: seq<PageId>
    var requests: seq<nat>
    var replies: seq<seq<Byte>>

    ghost predicate Separate() {
      store.c == c && store.Valid() && frames != store.blockMap
    }

    ghost function Abs(): Memory
      requires Separate()
      reads this, frameTable, frames, store.blockMap
    {
      Memory(sizes, pages, frameTable[..], frames[..], order, pending, requests, replies, store.Contents())
    }

    ghost predicate Valid()
      reads this, frameTable, frames, store.blockMap
    {
      Separate() && WellFormed(c, Abs())
    }

    /** As many frames as whole pages fit in the user space; no process, no page, every frame free. */
    constructor (memorySize: nat, pageSize: nat, swapCount: nat, algorithm: Algorithm)
      requires 0 < pageSize <= memorySize
      ensures Valid() && c == Config(pageSize, memorySize / pageSize, swapCount, algorithm)
      ensures Initial(c, Abs()) && fresh(frames) && fresh(frameTable) && fresh(store) && fresh(store.blockMap)
    {
      var config := Config(pageSize, memorySize / pageSize, swapCount, algorithm);
      BaseIsProduct(config, config.frameCount);
      c := config;
      store := new SwapStore(config);
      frames := new Byte[memorySize](_ => 0);
      frameTable := new bool[config.frameCount](_ => false);
      sizes, pages, order, pending, requests, replies := map[], map[], [], [], [], [];
    }

    /** The scan of the frame bitmap. A frame that is found is marked at once. */
    method CheckAvailableFrames() returns (r: Option<nat>)
      requires Valid()
      modifies frameTable
      ensures r == LowestClear(old(frameTable[..]), 0)
      ensures frameTable[..] == if r.Some? then old(frameTable[..])[r.value := true] else old(frameTable[..])
    {
      var i := 0;
      while i < frameTable.Length && frameTable[i]
        invariant i <= frameTable.Length
        invariant LowestClear(frameTable[..], 0) == LowestClear(frameTable[..], i)
      {
        i := i + 1;
      }
      if i == frameTable.Length {
        return None;
      }
      frameTable[i] := true;
      return Some(i);
    }

    /** A reference to a page and the turn of the sorter. */
    method ReferencePage(p: PageId)
      requires Valid() && p in pages
      modifies this`order
      ensures Valid() && Abs() == old(Abs()).(order := Referenced(c, old(Abs()), p))
    {
      assert forall x :: x in RemoveFirst(order, p) ==> x in order by { RemoveFirstSubset(order, p); }
      match c.algorithm {
        case Fifo =>
          if !pages[p].present {
            order := order + [p];
          }
        case Lru =>
          order := RemoveFirst(order, p);
          order := order + [p];
      }
      assert forall i :: 0 <= i < |order| ==> order[i] in order;
    }

    /** LOAD_PAGE. */
    method LoadPageRequest(p: PageId)
      requires Valid() && p in pages
      modifies this`order, this`pending, this`requests
      ensures Valid() && Abs() == RequestLoad(c, old(Abs()), p)
    {
      pending := pending + [p];
      ReferencePage(p);
      requests := requests + [pages[p].swapPosition];
    }

    /** The file system answers the oldest GET_FROM_SWAP. */
    method FileSystemAnswers()
      requires Valid() && requests != []
      modifies this`requests, this`replies
      ensures Valid() && Abs() == AnswerSwap(c, old(Abs()))
    {
      var data := store.ReadFromSwapBlock(requests[0]);
      requests, replies := requests[1..], replies + [data.value];
    }

    method WriteFrameBytes(address: nat, data: seq<Byte>)
      requires Separate() && address + |data| <= frames.Length
      modifies frames
      ensures frames[..] == Splice(old(frames[..]), address, data)
    {
      CopyInto(frames, address, data);
    }

    method SwapPageIn(p: PageId, frame: nat, data: seq<Byte>)
      requires Valid() && p in pages && frame < c.frameCount && |data| == c.pageSize
      modifies this`pages, frames
      ensures Valid() && Abs() == SwapIn(c, old(Abs()), p, frame, data)
    {
      BaseBefore(c, frame, c.frameCount);
      pages := pages[p := pages[p].(frame := frame, present := true)];
      WriteFrameBytes(Base(c, frame), data);
    }

    method SwapPageOut(victim: PageId)
      requires Valid() && victim in pages
      modifies this`pages, store.blockMap
      ensures Valid() && Abs() == SwapOut(c, old(Abs()), victim)
    {
      var e := pages[victim];
      if e.modified {
        BaseBefore(c, e.frame, c.frameCount);
        var content := frames[Base(c, e.frame)..Base(c, e.frame) + c.pageSize];
        assert content == FrameAt(c, frames[..], e.frame);
        store.WriteToSwapBlock(e.swapPosition, content);
      }
      pages := pages[victim := e.(present := false, modified := false)];
    }

    /** load_page: a free frame, or the frame of the first page of the replacement list. */
    method LoadArrivedPage(p: PageId, data: seq<Byte>)
      requires Valid() && p in pages && |data| == c.pageSize
      requires LowestClear(Abs().bitmap, 0).None? ==> order != []
      modifies this`pages, this`order, frameTable, frames, store.blockMap
      ensures Valid() && Abs() == LoadPage(c, old(Abs()), p, data)
    {
      var result := CheckAvailableFrames();
      if result.Some? {
        SwapPageIn(p, result.value, data);
      } else {
        var victim := order[0];
        order := order[1..];
        SwapPageOut(victim);
        SwapPageIn(p, pages[victim].frame, data);
      }
    }

    /** GET_FROM_SWAP: the reply serves the oldest entry of list_page. */
    method PageArrives()
      requires Valid() && replies != []
      requires pending != [] && LowestClear(Abs().bitmap, 0).None? ==> order != []
      modifies this`pages, this`order, this`pending, this`replies, frameTable, frames, store.blockMap
      ensures Valid() && Abs() == Arrive(c, old(Abs()))
    {
      var data := replies[0];
      replies := replies[1..];
      if pending != [] {
        var p := pending[0];
        pending := pending[1..];
        LoadArrivedPage(p, data);
      }
    }

    /** PAGE_NUMBER: the frame of a present page, or a page fault. */
    method Translate(p: PageId) returns (frame: Option<nat>)
      requires Valid()
      ensures frame == if Resident(Abs(), p) then Some(pages[p].frame) else None
    {
      if p !in pages || !pages[p].present {
        return None;
      }
      return Some(pages[p].frame);
    }

    /** The translation the CPU asks for, then MOV_OUT when a frame was found. */
    method Store(pid: Pid, address: int, value: Word) returns (done: bool)
      requires Valid()
      requires Resident(Abs(), PageOf(c, pid, address)) ==>
        Addressable(c, Abs(), PageOf(c, pid, address), Displacement(c, address), 4)
      modifies this`pages, this`order, frames
      ensures Valid() && done == Resident(old(Abs()), PageOf(c, pid, address))
      ensures Abs() == MovOut(c, old(Abs()), pid, address, value)
    {
      var p, d := PageOf(c, pid, address), Displacement(c, address);
      var frame := Translate(p);
      if frame.None? {
        return false;
      }
      ReferencePage(p);
      pages := pages[p := pages[p].(modified := true)];
      WriteFrameBytes(Base(c, frame.value) + d, WordBytes(value));
      return true;
    }

    /** The translation the CPU asks for, then MOV_IN when a frame was found. */
    method Load(pid: Pid, address: int) returns (value: Option<Word>)
      requires Valid()
      requires Resident(Abs(), PageOf(c, pid, address)) ==>
        Addressable(c, Abs(), PageOf(c, pid, address), Displacement(c, address), 4)
      modifies this`order
      ensures Valid() && Abs() == MovIn(c, old(Abs()), pid, address)
      ensures value == if Resident(old(Abs()), PageOf(c, pid, address))
                       then Some(WordAt(c, old(Abs()), PageOf(c, pid, address), Displacement(c, address))) else None
    {
      var p, d := PageOf(c, pid, address), Displacement(c, address);
      var frame := Translate(p);
      if frame.None? {
        return None;
      }
      ReferencePage(p);
      var a := Base(c, frame.value) + d;
      assert frames[a..a + 4] == frames[..][a..a + 4];
      return Some(WordOf(frames[a..a + 4]));
    }

    /** page_table_create: one absent page for each block. */
    method PageTableCreate(pid: Pid, blocks: seq<nat>)
      modifies this`sizes, this`pages
      ensures sizes == old(sizes)[pid := |blocks|]
      ensures pages == old(pages) + NewEntries(pid, blocks)
    {
      for i := 0 to |blocks|
        invariant sizes == old(sizes)
        invariant pages == old(pages) + NewEntries(pid, blocks[..i])
      {
        pages := pages[PageId(pid, i) := Entry(0, false, false, blocks[i])];
      }
      assert blocks[..|blocks|] == blocks;
      sizes := sizes[pid := |blocks|];
    }

    /** CREATE_PROCESS: swap blocks are reserved, and the table is made when the instruction file was found. A list of
        more blocks than exist is not sent, and a table cannot be made with too few: the code dereferences NULL
        there. */
    method CreateProcess(pid: Pid, count: nat, fileFound: bool) returns (survives: bool)
      requires Valid() && pid !in sizes
      modifies this`sizes, this`pages, store.blockMap
      ensures survives <==> CanCreate(c, old(Abs()), pid, count, fileFound)
      ensures survives ==> Valid() && Abs() == Create(c, old(Abs()), pid, count, fileFound)
      ensures !survives ==>
        var swap := old(Abs()).swap;
        Abs() == old(Abs()).(swap := if count <= c.swapCount then Reserve(swap, count).swap else swap)
    {
      ghost var s := Abs();
      var reserved := store.ReserveSwapBlocks(count);
      if reserved.None? || (fileFound && |reserved.value| < count) {
        return false;
      }
      CreateWellFormed(c, s, pid, count, fileFound);
      if fileFound {
        PageTableCreate(pid, reserved.value);
      }
      assert Abs() == Create(c, s, pid, count, fileFound);
      return true;
    }

    /** destroy_page_entry: the frame of a present page is freed and the page leaves the replacement list. */
    method DestroyPageEntry(p: PageId)
      requires Separate() && p in pages && pages[p].frame < frameTable.Length
      modifies this`order, frameTable
      ensures order == RemoveFirst(old(order), p)
      ensures frameTable[..] ==
        if pages[p].present then old(frameTable[..])[pages[p].frame := false] else old(frameTable[..])
    {
      if pages[p].present {
        frameTable[pages[p].frame] := false;
      }
      order := RemoveFirst(order, p);
    }

    /** destroy_page_table. */
    method DestroyPages(ids: seq<PageId>)
      requires Separate() && forall i :: 0 <= i < |ids| ==> ids[i] in pages && pages[ids[i]].frame < frameTable.Length
      modifies this`order, frameTable
      ensures order == RemoveEach(old(order), ids) && frameTable[..] == ClearFrames(old(Abs()), ids)
    {
      ghost var s := Abs();
      for i := 0 to |ids|
        invariant order == RemoveEach(s.order, ids[..i])
        invariant frameTable[..] == ClearFrames(s, ids[..i])
      {
        assert ids[..i + 1][..i] == ids[..i];
        DestroyPageEntry(ids[i]);
      }
      assert ids[..|ids|] == ids;
    }

    /** free_swap_blocks of the memory, answered by the file system. */
    method ReleaseBlocks(ids: seq<PageId>)
      requires Valid() && forall i :: 0 <= i < |ids| ==> ids[i] in pages
      modifies store.blockMap
      ensures store.Contents() == FreeBlocks(old(store.Contents()), Positions(old(Abs()), ids))
    {
      var entries := pages;
      var positions := seq(|ids|, i requires 0 <= i < |ids| && ids[i] in entries => entries[ids[i]].swapPosition);
      assert positions == Positions(Abs(), ids);
      AllExist(Positions(Abs(), ids), c.swapCount);
      store.FreeSwapBlocks(positions);
    }

    /** END_PROCESS: blocks, frames, list entries and the table of the process go. */
    method EndProcess(pid: Pid)
      requires Valid() && pid in sizes
      modifies this`sizes, this`pages, this`order, frameTable, store.blockMap
      ensures Separate() && Abs() == Finish(c, old(Abs()), pid)
    {
      var ids := PagesOf(pid, sizes[pid]);
      assert forall i :: 0 <= i < |ids| ==> ids[i] in pages && pages[ids[i]].frame < frameTable.Length;
      ReleaseBlocks(ids);
      ghost var s := Abs();
      DestroyPages(ids);
      assert frameTable[..] == ClearFrames(s, ids) == ClearFrames(old(Abs()), ids) by {
        ClearFramesReads(s, old(Abs()), ids);
      }
      pages := map p | p in pages && p.pid != pid :: pages[p];
      sizes := sizes - {pid};
    }
  }

  lemma {:induction false} ClearFramesReads(s: Memory, t: Memory, ids: seq<PageId>)
    requires s.pages == t.pages && s.bitmap == t.bitmap
    requires forall i :: 0 <= i < |ids| ==> ids[i] in s.pages && s.pages[ids[i]].frame < |s.bitmap|
    ensures ClearFrames(s, ids) == ClearFrames(t, ids)
  {
    if ids != [] {
      ClearFramesReads(s, t, ids[..|ids| - 1]);
    }
  }

  lemma {:induction false} RemoveFirstSubset<T>(s: seq<T>, x: T)
    ensures forall y :: y in RemoveFirst(s, x) ==> y in s
  {
    if s != [] {
      RemoveFirstSubset(s[1..], x);
    }
  }
}
