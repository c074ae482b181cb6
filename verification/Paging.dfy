/** Demand paging as the memory process performs it: page tables, the frame bitmap, the byte array
    behind the frames, the replacement list, the faults in flight and the swap blocks that the
    file system keeps. Every message the memory process handles is one step on a Memory value. */
module Paging {
  import opened Bytes

  type Pid = nat

  /** A page entry is known by its owner and its number, which may be any int a program computed. */
  datatype PageId = PageId(pid: Pid, number: int)

  datatype Entry = Entry(frame: nat, present: bool, modified: bool, swapPosition: nat)

  datatype Algorithm = Fifo | Lru

  datatype Config = Config(pageSize: nat, frameCount: nat, swapCount: nat, algorithm: Algorithm)

  /** sizes: pages of each live process. bitmap: taken frames. order: pages_to_replace.
      pending: list_page. requests: swap positions asked for and not yet answered by the file system.
      replies: page contents answered and not yet handled. */
  datatype Memory = Memory(
    sizes: map<Pid, nat>,
    pages: map<PageId, Entry>,
    bitmap: seq<bool>,
    frames: seq<Byte>,
    order: seq<PageId>,
    pending: seq<PageId>,
    requests: seq<nat>,
    replies: seq<seq<Byte>>,
    swap: seq<seq<Byte>>)

  const FREE_MARK: Byte := 48

  // ----- frames and blocks

  /** The real address of the first byte of frame k, and the logical address of the first byte of page k:
      k times the page size, written as a sum so that addresses stay linear in proofs. */
  function Base(c: Config, k: nat): nat {
    if k == 0 then 0 else Base(c, k - 1) + c.pageSize
  }

  lemma {:induction false} BaseIsProduct(c: Config, k: nat)
    ensures Base(c, k) == k * c.pageSize
  {
    if k > 0 {
      BaseIsProduct(c, k - 1);
    }
  }

  lemma {:induction false} BaseBefore(c: Config, j: nat, k: nat)
    requires j < k
    ensures Base(c, j) + c.pageSize <= Base(c, k)
  {
    if j + 1 < k {
      BaseBefore(c, j, k - 1);
    }
  }

  predicate FramesFit(c: Config, frames: seq<Byte>) {
    Base(c, c.frameCount) <= |frames|
  }

  function FrameAt(c: Config, frames: seq<Byte>, k: nat): (r: seq<Byte>)
    requires FramesFit(c, frames) && k < c.frameCount
    ensures |r| == c.pageSize
  {
    BaseBefore(c, k, c.frameCount);
    frames[Base(c, k)..Base(c, k) + c.pageSize]
  }

  function Filled(n: nat, b: Byte): (r: seq<Byte>)
    ensures |r| == n && forall i :: 0 <= i < n ==> r[i] == b
  {
    seq(n, i => b)
  }

  /** What the file system takes for a free swap block: one made only of '0' characters. */
  predicate Blank(block: seq<Byte>) {
    forall i :: 0 <= i < |block| ==> block[i] == FREE_MARK
  }

  // ----- lists

  function RemoveFirst<T(==)>(s: seq<T>, x: T): (r: seq<T>) {
    if s == [] then [] else if s[0] == x then s[1..] else [s[0]] + RemoveFirst(s[1..], x)
  }

  function RemoveEach<T(==)>(s: seq<T>, xs: seq<T>): (r: seq<T>) {
    if xs == [] then s else RemoveFirst(RemoveEach(s, xs[..|xs| - 1]), xs[|xs| - 1])
  }

  predicate NoDuplicates<T(==)>(s: seq<T>) {
    forall i, j :: 0 <= i < j < |s| ==> s[i] != s[j]
  }

  // ----- searches

  /** The lowest clear bit at or after i, if there is one. */
  function LowestClear(bitmap: seq<bool>, i: nat): (r: Option<nat>)
    requires i <= |bitmap|
    ensures r.Some? ==> i <= r.value < |bitmap| && !bitmap[r.value]
    ensures r.Some? ==> forall k :: i <= k < r.value ==> bitmap[k]
    ensures r.None? ==> forall k :: i <= k < |bitmap| ==> bitmap[k]
    decreases |bitmap| - i
  {
    if i == |bitmap| then None else if !bitmap[i] then Some(i) else LowestClear(bitmap, i + 1)
  }

  function LowestBlank(swap: seq<seq<Byte>>, i: nat): (r: Option<nat>)
    requires i <= |swap|
    ensures r.Some? ==> i <= r.value < |swap| && Blank(swap[r.value])
    ensures r.Some? ==> forall k :: i <= k < r.value ==> !Blank(swap[k])
    ensures r.None? ==> forall k :: i <= k < |swap| ==> !Blank(swap[k])
    decreases |swap| - i
  {
    if i == |swap| then None else if Blank(swap[i]) then Some(i) else LowestBlank(swap, i + 1)
  }

  // ----- swap area

  datatype Reservation = Reservation(swap: seq<seq<Byte>>, blocks: seq<nat>)

  /** Takes the lowest blank block, zeroes it, and goes on until count blocks are taken or none is blank. */
  function Reserve(swap: seq<seq<Byte>>, count: nat): (r: Reservation)
    ensures |r.swap| == |swap| && |r.blocks| <= count
    ensures forall b :: 0 <= b < |swap| ==> |r.swap[b]| == |swap[b]|
    ensures forall i :: 0 <= i < |r.blocks| ==> r.blocks[i] < |swap|
    decreases count
  {
    if count == 0 then Reservation(swap, [])
    else
      match LowestBlank(swap, 0)
      case None => Reservation(swap, [])
      case Some(b) =>
        var rest := Reserve(swap[b := Filled(|swap[b]|, 0)], count - 1);
        Reservation(rest.swap, [b] + rest.blocks)
  }

  function FreeBlocks(swap: seq<seq<Byte>>, positions: seq<nat>): (r: seq<seq<Byte>>)
    requires forall i :: 0 <= i < |positions| ==> positions[i] < |swap|
    ensures |r| == |swap|
    ensures forall b :: 0 <= b < |swap| ==> r[b] == if b in positions then Filled(|swap[b]|, FREE_MARK) else swap[b]
  {
    if positions == [] then swap
    else
      var last := positions[|positions| - 1];
      var before := FreeBlocks(swap, positions[..|positions| - 1]);
      assert forall b :: b in positions <==> b in positions[..|positions| - 1] || b == last by {
        assert positions == positions[..|positions| - 1] + [last];
      }
      before[last := Filled(|before[last]|, FREE_MARK)]
  }

  // ----- well-formed states

  ghost predicate WellFormed(c: Config, s: Memory) {
    && c.pageSize > 0
    && c.frameCount > 0
    && |s.bitmap| == c.frameCount
    && FramesFit(c, s.frames)
    && |s.swap| == c.swapCount
    && (forall b :: 0 <= b < |s.swap| ==> |s.swap[b]| == c.pageSize)
    && (forall p: PageId :: p in s.pages <==> p.pid in s.sizes && 0 <= p.number < s.sizes[p.pid])
    && (forall p :: p in s.pages ==> s.pages[p].frame < c.frameCount && s.pages[p].swapPosition < c.swapCount)
    && (forall i :: 0 <= i < |s.order| ==> s.order[i] in s.pages)
    && (forall i :: 0 <= i < |s.pending| ==> s.pending[i] in s.pages)
    && (forall i :: 0 <= i < |s.requests| ==> s.requests[i] < c.swapCount)
    && (forall i :: 0 <= i < |s.replies| ==> |s.replies[i]| == c.pageSize)
  }

  predicate Resident(s: Memory, p: PageId) {
    p in s.pages && s.pages[p].present
  }

  /** The content of a page: its frame while it is present, its swap block otherwise. */
  function View(c: Config, s: Memory, p: PageId): (r: seq<Byte>)
    requires WellFormed(c, s) && p in s.pages
    ensures |r| == c.pageSize
  {
    if s.pages[p].present then FrameAt(c, s.frames, s.pages[p].frame) else s.swap[s.pages[p].swapPosition]
  }

  // ----- address translation on the CPU

  /** C's int division, which truncates toward zero. */
  function TruncatedDivision(a: int, b: nat): int
    requires b > 0
  {
    if a >= 0 then a / b else -((-a) / b)
  }

  function PageOf(c: Config, pid: Pid, address: int): PageId
    requires c.pageSize > 0
  {
    PageId(pid, TruncatedDivision(address, c.pageSize))
  }

  function Displacement(c: Config, address: int): int
    requires c.pageSize > 0
  {
    address - TruncatedDivision(address, c.pageSize) * c.pageSize
  }

  /** The whole word lies inside one page. */
  predicate WordInPage(c: Config, address: int)
    requires c.pageSize > 0
  {
    0 <= address && Displacement(c, address) + 4 <= c.pageSize
  }

  /** Every address, also a negative one, is that many whole pages and a displacement short of a page on the same side
      of zero. */
  lemma AddressParts(c: Config, pid: Pid, address: int)
    requires c.pageSize > 0
    ensures var n, d := PageOf(c, pid, address).number, Displacement(c, address);
      && address == n * c.pageSize + d && -d < c.pageSize && d < c.pageSize
      && (address >= 0 ==> d >= 0 && n >= 0) && (address <= 0 ==> d <= 0 && n <= 0)
  {
    var b := c.pageSize;
    if address >= 0 {
      assert address == (address / b) * b + address % b;
    } else {
      var m := -address;
      assert m == (m / b) * b + m % b;
      assert (-(m / b)) * b == -((m / b) * b);
    }
  }

  /** A non-negative address lies at a displacement inside the page from the first address of that page. */
  lemma SplitAddress(c: Config, pid: Pid, address: int)
    requires c.pageSize > 0 && address >= 0
    ensures PageOf(c, pid, address).number >= 0 && 0 <= Displacement(c, address) < c.pageSize
    ensures address == Base(c, PageOf(c, pid, address).number) + Displacement(c, address)
  {
    BaseIsProduct(c, address / c.pageSize);
  }

  // ----- the steps

  /** A reference to page p followed by the turn of the sorter thread. */
  function Referenced(c: Config, s: Memory, p: PageId): (order: seq<PageId>)
    requires p in s.pages
  {
    match c.algorithm
    case Fifo => if s.pages[p].present then s.order else s.order + [p]
    case Lru => RemoveFirst(s.order, p) + [p]
  }

  /** LOAD_PAGE: the fault joins list_page, the page is referenced and its block is asked for. */
  function RequestLoad(c: Config, s: Memory, p: PageId): Memory
    requires p in s.pages
  {
    s.(pending := s.pending + [p],
       order := Referenced(c, s, p),
       requests := s.requests + [s.pages[p].swapPosition])
  }

  /** GET_FROM_SWAP on the file system: the oldest request is answered with the block as it is now. */
  function AnswerSwap(c: Config, s: Memory): Memory
    requires WellFormed(c, s) && s.requests != []
  {
    s.(requests := s.requests[1..], replies := s.replies + [s.swap[s.requests[0]]])
  }

  function SwapIn(c: Config, s: Memory, p: PageId, frame: nat, data: seq<Byte>): Memory
    requires WellFormed(c, s) && p in s.pages && frame < c.frameCount && |data| == c.pageSize
  {
    BaseBefore(c, frame, c.frameCount);
    s.(pages := s.pages[p := s.pages[p].(frame := frame, present := true)],
       frames := Splice(s.frames, Base(c, frame), data))
  }

  /** A modified victim is copied to its block; a clean one is dropped. */
  function SwapOut(c: Config, s: Memory, victim: PageId): Memory
    requires WellFormed(c, s) && victim in s.pages
  {
    var e := s.pages[victim];
    s.(pages := s.pages[victim := e.(present := false, modified := false)],
       swap := if e.modified then s.swap[e.swapPosition := FrameAt(c, s.frames, e.frame)] else s.swap)
  }

  function LoadPage(c: Config, s: Memory, p: PageId, data: seq<Byte>): Memory
    requires WellFormed(c, s) && p in s.pages && |data| == c.pageSize
    requires LowestClear(s.bitmap, 0).None? ==> s.order != []
  {
    match LowestClear(s.bitmap, 0)
    case Some(k) => SwapIn(c, s.(bitmap := s.bitmap[k := true]), p, k, data)
    case None =>
      var victim := s.order[0];
      var out := SwapOut(c, s.(order := s.order[1..]), victim);
      SwapIn(c, out, p, out.pages[victim].frame, data)
  }

  /** GET_FROM_SWAP on the memory: the reply serves the oldest fault of list_page, if there is one. */
  function Arrive(c: Config, s: Memory): Memory
    requires WellFormed(c, s) && s.replies != []
    requires s.pending != [] && LowestClear(s.bitmap, 0).None? ==> s.order != []
  {
    var rest := s.(replies := s.replies[1..]);
    if s.pending == [] then rest
    else LoadPage(c, rest.(pending := s.pending[1..]), s.pending[0], s.replies[0])
  }

  /** The n bytes at this displacement of the page's frame fall inside the user space. */
  predicate Addressable(c: Config, s: Memory, p: PageId, displacement: int, n: nat)
    requires p in s.pages
  {
    0 <= Base(c, s.pages[p].frame) + displacement && Base(c, s.pages[p].frame) + displacement + n <= |s.frames|
  }

  /** MOV_OUT on the memory, for any number of bytes. */
  function StoreBytes(c: Config, s: Memory, p: PageId, displacement: int, w: seq<Byte>): Memory
    requires p in s.pages && Addressable(c, s, p, displacement, |w|)
  {
    s.(order := Referenced(c, s, p),
       pages := s.pages[p := s.pages[p].(modified := true)],
       frames := Splice(s.frames, Base(c, s.pages[p].frame) + displacement, w))
  }

  /** MOV_IN on the memory: the reference, and the word that is read. */
  function TouchPage(c: Config, s: Memory, p: PageId): Memory
    requires p in s.pages
  {
    s.(order := Referenced(c, s, p))
  }

  function WordAt(c: Config, s: Memory, p: PageId, displacement: int): Word
    requires p in s.pages && Addressable(c, s, p, displacement, 4)
  {
    var a := Base(c, s.pages[p].frame) + displacement;
    WordOf(s.frames[a..a + 4])
  }

  /** PAGE_NUMBER answered with a frame and then MOV_OUT, or answered with a page fault. */
  function MovOut(c: Config, s: Memory, pid: Pid, address: int, value: Word): Memory
    requires c.pageSize > 0
    requires Resident(s, PageOf(c, pid, address)) ==>
      Addressable(c, s, PageOf(c, pid, address), Displacement(c, address), 4)
  {
    var p := PageOf(c, pid, address);
    if Resident(s, p) then StoreBytes(c, s, p, Displacement(c, address), WordBytes(value)) else s
  }

  function MovIn(c: Config, s: Memory, pid: Pid, address: int): Memory
    requires c.pageSize > 0
  {
    var p := PageOf(c, pid, address);
    if Resident(s, p) then TouchPage(c, s, p) else s
  }

  /** The pages of a process in the order of its table. */
  function PagesOf(pid: Pid, count: nat): (r: seq<PageId>)
    ensures |r| == count && forall i :: 0 <= i < count ==> r[i] == PageId(pid, i)
  {
    seq(count, i => PageId(pid, i))
  }

  /** The entries of a new page table: absent, clean pages on the blocks in order. */
  function NewEntries(pid: Pid, blocks: seq<nat>): map<PageId, Entry> {
    map i | 0 <= i < |blocks| :: PageId(pid, i) := Entry(0, false, false, blocks[i])
  }

  /** CREATE_PROCESS with the blocks the file system answers. When the instruction file is missing
      the blocks stay reserved, however few there were, and no table is made. */
  function Create(c: Config, s: Memory, pid: Pid, count: nat, fileFound: bool): Memory
    requires fileFound ==> |Reserve(s.swap, count).blocks| == count
  {
    var r := Reserve(s.swap, count);
    if !fileFound then s.(swap := r.swap)
    else
      s.(swap := r.swap,
         sizes := s.sizes[pid := count],
         pages := s.pages + NewEntries(pid, r.blocks))
  }

  /** The frames of the present pages among ids become free. */
  function ClearFrames(s: Memory, ids: seq<PageId>): (r: seq<bool>)
    requires forall i :: 0 <= i < |ids| ==> ids[i] in s.pages && s.pages[ids[i]].frame < |s.bitmap|
    ensures |r| == |s.bitmap|
    ensures forall k :: 0 <= k < |r| ==>
      (r[k] <==> s.bitmap[k] && forall i :: 0 <= i < |ids| ==> !(s.pages[ids[i]].present && s.pages[ids[i]].frame == k))
  {
    if ids == [] then s.bitmap
    else
      var before := ClearFrames(s, ids[..|ids| - 1]);
      var e := s.pages[ids[|ids| - 1]];
      if e.present then before[e.frame := false] else before
  }

  function Positions(s: Memory, ids: seq<PageId>): (r: seq<nat>)
    requires forall i :: 0 <= i < |ids| ==> ids[i] in s.pages
    ensures |r| == |ids| && forall i :: 0 <= i < |ids| ==> r[i] == s.pages[ids[i]].swapPosition
  {
    seq(|ids|, i requires 0 <= i < |ids| => s.pages[ids[i]].swapPosition)
  }

  /** END_PROCESS. */
  function Finish(c: Config, s: Memory, pid: Pid): Memory
    requires WellFormed(c, s) && pid in s.sizes
  {
    var ids := PagesOf(pid, s.sizes[pid]);
    s.(swap := FreeBlocks(s.swap, Positions(s, ids)),
       bitmap := ClearFrames(s, ids),
       order := RemoveEach(s.order, ids),
       sizes := s.sizes - {pid},
       pages := map p | p in s.pages && p.pid != pid :: s.pages[p])
  }
}
