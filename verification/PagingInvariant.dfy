/** What every step of the memory process keeps, and what it does to the content of pages. */
module PagingInvariant {
  import opened Bytes
  import opened Paging
  import opened PagingStructure

  // ----- the invariant

  /** No two pages of live processes share a swap block. */
  ghost predicate BlocksDistinct(pages: map<PageId, Entry>) {
    forall p, q :: p in pages && q in pages && p != q ==> pages[p].swapPosition != pages[q].swapPosition
  }

  /** A present unmodified page equals its block, and an absent page is never modified. */
  ghost predicate CleanMatchesSwap(c: Config, s: Memory)
    requires WellFormed(c, s)
  {
    forall p :: p in s.pages ==>
      (s.pages[p].modified ==> s.pages[p].present) &&
      (!s.pages[p].modified ==> View(c, s, p) == s.swap[s.pages[p].swapPosition])
  }

  /** The requests and replies travelling between the two processes are those of list_page, in its order. */
  ghost predicate FaultsAnswered(pages: map<PageId, Entry>, swap: seq<seq<Byte>>, pending: seq<PageId>,
                                 requests: seq<nat>, replies: seq<seq<Byte>>) {
    && |pending| == |replies| + |requests|
    && (forall i :: 0 <= i < |pending| ==> pending[i] in pages && pages[pending[i]].swapPosition < |swap|)
    && (forall i :: 0 <= i < |replies| ==> replies[i] == swap[pages[pending[i]].swapPosition])
    && (forall i :: 0 <= i < |requests| ==> requests[i] == pages[pending[|replies| + i]].swapPosition)
  }

  ghost predicate Contents(c: Config, s: Memory)
    requires WellFormed(c, s)
  {
    && BlocksDistinct(s.pages)
    && CleanMatchesSwap(c, s)
    && FaultsAnswered(s.pages, s.swap, s.pending, s.requests, s.replies)
  }

  ghost predicate Inv(c: Config, s: Memory) {
    Structure(c, s) && Contents(c, s)
  }

  /** No block of a live process looks free to the file system. */
  ghost predicate BlocksReserved(c: Config, s: Memory)
    requires WellFormed(c, s)
  {
    NoneBlank(s.pages, s.swap)
  }

  ghost predicate NoneBlank(pages: map<PageId, Entry>, swap: seq<seq<Byte>>) {
    forall p :: p in pages ==> pages[p].swapPosition < |swap| && !Blank(swap[pages[p].swapPosition])
  }

  ghost predicate SameViews(c: Config, s: Memory, t: Memory)
    requires WellFormed(c, s) && WellFormed(c, t)
  {
    t.sizes == s.sizes && forall p :: p in s.pages ==> p in t.pages && View(c, t, p) == View(c, s, p)
  }

  // ----- bytes

  lemma WriteFrameHere(c: Config, frames: seq<Byte>, k: nat, off: nat, d: seq<Byte>)
    requires FramesFit(c, frames) && k < c.frameCount && off + |d| <= c.pageSize
    ensures Base(c, k) + off + |d| <= |frames|
    ensures FrameAt(c, Splice(frames, Base(c, k) + off, d), k) == Splice(FrameAt(c, frames, k), off, d)
  {
    BaseBefore(c, k, c.frameCount);
    SpliceInside(frames, Base(c, k) + off, d, Base(c, k), Base(c, k) + c.pageSize);
  }

  lemma WriteFrameElsewhere(c: Config, frames: seq<Byte>, k: nat, off: nat, d: seq<Byte>, j: nat)
    requires FramesFit(c, frames) && k < c.frameCount && off + |d| <= c.pageSize && j < c.frameCount && j != k
    ensures Base(c, k) + off + |d| <= |frames|
    ensures FrameAt(c, Splice(frames, Base(c, k) + off, d), j) == FrameAt(c, frames, j)
  {
    BaseBefore(c, k, c.frameCount);
    BaseBefore(c, j, c.frameCount);
    if j < k { BaseBefore(c, j, k); } else { BaseBefore(c, k, j); }
    SpliceOutside(frames, Base(c, k) + off, d, Base(c, j), Base(c, j) + c.pageSize);
  }

  /** Writing inside one frame changes that frame only. */
  lemma WriteFrame(c: Config, frames: seq<Byte>, k: nat, off: nat, d: seq<Byte>)
    requires FramesFit(c, frames) && k < c.frameCount && off + |d| <= c.pageSize
    ensures Base(c, k) + off + |d| <= |frames|
    ensures var f := Splice(frames, Base(c, k) + off, d);
      && FramesFit(c, f)
      && FrameAt(c, f, k) == Splice(FrameAt(c, frames, k), off, d)
      && forall j :: 0 <= j < c.frameCount && j != k ==> FrameAt(c, f, j) == FrameAt(c, frames, j)
  {
    WriteFrameHere(c, frames, k, off, d);
    forall j | 0 <= j < c.frameCount && j != k
      ensures FrameAt(c, Splice(frames, Base(c, k) + off, d), j) == FrameAt(c, frames, j)
    {
      WriteFrameElsewhere(c, frames, k, off, d, j);
    }
  }

  // ----- LOAD_PAGE and the answer of the file system

  lemma RequestLoadFlight(pages: map<PageId, Entry>, swap: seq<seq<Byte>>, pending: seq<PageId>, requests: seq<nat>,
                          replies: seq<seq<Byte>>, p: PageId)
    requires FaultsAnswered(pages, swap, pending, requests, replies)
    requires p in pages && pages[p].swapPosition < |swap|
    ensures FaultsAnswered(pages, swap, pending + [p], requests + [pages[p].swapPosition], replies)
  {
  }

  lemma AnswerFlight(pages: map<PageId, Entry>, swap: seq<seq<Byte>>, pending: seq<PageId>, requests: seq<nat>,
                     replies: seq<seq<Byte>>)
    requires FaultsAnswered(pages, swap, pending, requests, replies) && requests != []
    ensures requests[0] < |swap|
    ensures FaultsAnswered(pages, swap, pending, requests[1..], replies + [swap[requests[0]]])
  {
    assert requests[0] == pages[pending[|replies| + 0]].swapPosition;
    var requests', replies' := requests[1..], replies + [swap[requests[0]]];
    forall i | 0 <= i < |requests'| ensures requests'[i] == pages[pending[|replies'| + i]].swapPosition {
      assert requests'[i] == requests[i + 1];
    }
  }

  /** Nothing but the lists changes. */
  ghost predicate OnlyLists(s: Memory, t: Memory) {
    t.sizes == s.sizes && t.pages == s.pages && t.bitmap == s.bitmap && t.frames == s.frames && t.swap == s.swap
  }

  lemma ListsKeep(c: Config, s: Memory, t: Memory)
    requires Inv(c, s) && OnlyLists(s, t) && Structure(c, t)
    requires FaultsAnswered(t.pages, t.swap, t.pending, t.requests, t.replies)
    ensures Inv(c, t) && SameViews(c, s, t)
    ensures BlocksReserved(c, s) ==> BlocksReserved(c, t)
  {
    assert forall p :: p in s.pages ==> View(c, t, p) == View(c, s, p);
  }

  lemma RequestLoadKeeps(c: Config, s: Memory, p: PageId)
    requires Inv(c, s) && p in s.pages && !s.pages[p].present && p !in s.pending
    ensures Inv(c, RequestLoad(c, s, p)) && SameViews(c, s, RequestLoad(c, s, p))
    ensures BlocksReserved(c, s) ==> BlocksReserved(c, RequestLoad(c, s, p))
    ensures RequestLoad(c, s, p).order == s.order + [p]
  {
    var t := RequestLoad(c, s, p);
    RequestLoadStructure(c, s, p);
    RequestLoadFlight(s.pages, s.swap, s.pending, s.requests, s.replies, p);
    ListsKeep(c, s, t);
  }

  lemma AnswerSwapKeeps(c: Config, s: Memory)
    requires Inv(c, s) && s.requests != []
    ensures Inv(c, AnswerSwap(c, s)) && SameViews(c, s, AnswerSwap(c, s))
    ensures BlocksReserved(c, s) ==> BlocksReserved(c, AnswerSwap(c, s))
  {
    AnswerSwapStructure(c, s);
    AnswerFlight(s.pages, s.swap, s.pending, s.requests, s.replies);
    ListsKeep(c, s, AnswerSwap(c, s));
  }

  // ----- GET_FROM_SWAP: the page arrives

  /** The oldest fault leaves the lists; the entries and blocks of the others are as before. */
  lemma FlightAdvances(pages: map<PageId, Entry>, swap: seq<seq<Byte>>, pending: seq<PageId>, requests: seq<nat>,
                       replies: seq<seq<Byte>>, pages': map<PageId, Entry>, swap': seq<seq<Byte>>)
    requires FaultsAnswered(pages, swap, pending, requests, replies) && replies != [] && |swap'| == |swap|
    requires forall i :: 1 <= i < |pending| ==>
      pending[i] in pages' && pages'[pending[i]] == pages[pending[i]] &&
      swap'[pages[pending[i]].swapPosition] == swap[pages[pending[i]].swapPosition]
    ensures FaultsAnswered(pages', swap', pending[1..], requests, replies[1..])
  {
    forall i | 0 <= i < |requests| ensures requests[i] == pages'[pending[1..][|replies[1..]| + i]].swapPosition {
      assert pending[1..][|replies[1..]| + i] == pending[|replies| + i];
    }
  }

  /** What the arrival in a free frame leaves behind. */
  lemma ArriveInFreeFrameContents(c: Config, s: Memory, k: nat)
    requires Inv(c, s) && s.replies != [] && LowestClear(s.bitmap, 0) == Some(k)
    ensures var p, t := s.pending[0], Arrive(c, s);
      && p in s.pages && k < c.frameCount
      && t.pages == s.pages[p := s.pages[p].(frame := k, present := true)]
      && FramesFit(c, t.frames)
      && FrameAt(c, t.frames, k) == s.swap[s.pages[p].swapPosition]
      && (forall j :: 0 <= j < c.frameCount && j != k ==> FrameAt(c, t.frames, j) == FrameAt(c, s.frames, j))
  {
    var data := s.replies[0];
    assert data == s.swap[s.pages[s.pending[0]].swapPosition];
    WriteFrame(c, s.frames, k, 0, data);
    SpliceWhole(FrameAt(c, s.frames, k), data);
  }

  lemma ArriveInFreeFrameViews(c: Config, s: Memory, k: nat)
    requires Inv(c, s) && s.replies != [] && LowestClear(s.bitmap, 0) == Some(k)
    ensures var t := Arrive(c, s); WellFormed(c, t) && CleanMatchesSwap(c, t) && SameViews(c, s, t)
  {
    var p, t := s.pending[0], Arrive(c, s);
    ArriveInFreeFrameWellFormed(c, s, k);
    ArriveInFreeFrameContents(c, s, k);
    forall q | q in s.pages ensures View(c, t, q) == View(c, s, q) {
      if q != p && s.pages[q].present {
        assert s.pages[q].frame != k;
      }
    }
  }

  /** What the exchange of victim and arriving page leaves behind. */
  lemma ArriveOverVictimContents(c: Config, s: Memory)
    requires Inv(c, s) && s.replies != [] && LowestClear(s.bitmap, 0).None? && HeadResident(s)
    ensures var p, v, t := s.pending[0], s.order[0], Arrive(c, s);
      && p in s.pages && p != v
      && t.pages == s.pages[v := s.pages[v].(present := false, modified := false)]
                           [p := s.pages[p].(frame := s.pages[v].frame, present := true)]
      && t.swap[s.pages[v].swapPosition] == FrameAt(c, s.frames, s.pages[v].frame)
      && FramesFit(c, t.frames)
      && FrameAt(c, t.frames, s.pages[v].frame) == s.swap[s.pages[p].swapPosition]
      && (forall j ::
        0 <= j < c.frameCount && j != s.pages[v].frame ==> FrameAt(c, t.frames, j) == FrameAt(c, s.frames, j))
      && (forall b :: 0 <= b < c.swapCount && b != s.pages[v].swapPosition ==> t.swap[b] == s.swap[b])
  {
    var p, v := s.pending[0], s.order[0];
    var f, data := s.pages[v].frame, s.replies[0];
    assert data == s.swap[s.pages[p].swapPosition];
    WriteFrame(c, s.frames, f, 0, data);
    SpliceWhole(FrameAt(c, s.frames, f), data);
    assert !s.pages[v].modified ==> View(c, s, v) == s.swap[s.pages[v].swapPosition];
  }

  /** One page before and after the exchange. */
  lemma ArriveOverVictimView(c: Config, s: Memory, q: PageId)
    requires Inv(c, s) && s.replies != [] && LowestClear(s.bitmap, 0).None? && HeadResident(s)
    requires q in s.pages && WellFormed(c, Arrive(c, s))
    ensures var t := Arrive(c, s);
      && q in t.pages && View(c, t, q) == View(c, s, q)
      && (t.pages[q].modified ==> t.pages[q].present)
      && (!t.pages[q].modified ==> View(c, t, q) == t.swap[t.pages[q].swapPosition])
  {
    var p, v := s.pending[0], s.order[0];
    ArriveOverVictimContents(c, s);
    if q != v {
      assert s.pages[q].swapPosition != s.pages[v].swapPosition;
      if q != p && s.pages[q].present {
        assert s.pages[q].frame != s.pages[v].frame;
      }
    }
  }

  lemma ArriveOverVictimViews(c: Config, s: Memory)
    requires Inv(c, s) && s.replies != [] && LowestClear(s.bitmap, 0).None? && HeadResident(s)
    ensures var t := Arrive(c, s); WellFormed(c, t) && CleanMatchesSwap(c, t) && SameViews(c, s, t)
  {
    var t := Arrive(c, s);
    ArriveOverVictimWellFormed(c, s);
    forall q | q in s.pages
      ensures q in t.pages && View(c, t, q) == View(c, s, q)
      ensures t.pages[q].modified ==> t.pages[q].present
      ensures !t.pages[q].modified ==> View(c, t, q) == t.swap[t.pages[q].swapPosition]
    {
      ArriveOverVictimView(c, s, q);
    }
  }

  lemma ArriveInFreeFrameLists(c: Config, s: Memory, k: nat)
    requires Inv(c, s) && s.replies != [] && LowestClear(s.bitmap, 0) == Some(k)
    ensures var t := Arrive(c, s);
      FaultsAnswered(t.pages, t.swap, t.pending, t.requests, t.replies) && BlocksDistinct(t.pages)
  {
    var t := Arrive(c, s);
    FlightAdvances(s.pages, s.swap, s.pending, s.requests, s.replies, t.pages, t.swap);
    SamePositions(s.pages, t.pages);
  }

  lemma SamePositions(pages: map<PageId, Entry>, pages': map<PageId, Entry>)
    requires BlocksDistinct(pages)
    requires forall p :: p in pages' ==> p in pages && pages'[p].swapPosition == pages[p].swapPosition
    ensures BlocksDistinct(pages')
  {
  }

  lemma ArriveOverVictimDistinct(c: Config, s: Memory)
    requires Inv(c, s) && s.replies != [] && LowestClear(s.bitmap, 0).None? && HeadResident(s)
    ensures BlocksDistinct(Arrive(c, s).pages)
  {
    ArriveOverVictimContents(c, s);
    SamePositions(s.pages, Arrive(c, s).pages);
  }

  lemma ArriveOverVictimFlight(c: Config, s: Memory)
    requires Inv(c, s) && s.replies != [] && LowestClear(s.bitmap, 0).None? && HeadResident(s)
    ensures var t := Arrive(c, s); FaultsAnswered(t.pages, t.swap, t.pending, t.requests, t.replies)
  {
    var p, v, t := s.pending[0], s.order[0], Arrive(c, s);
    forall i | 1 <= i < |s.pending|
      ensures s.pending[i] in t.pages && t.pages[s.pending[i]] == s.pages[s.pending[i]]
      ensures t.swap[s.pages[s.pending[i]].swapPosition] == s.swap[s.pages[s.pending[i]].swapPosition]
    {
      assert s.pending[i] != v && s.pending[i] != p;
    }
    FlightAdvances(s.pages, s.swap, s.pending, s.requests, s.replies, t.pages, t.swap);
  }

  lemma ArriveKeeps(c: Config, s: Memory)
    requires Inv(c, s) && s.replies != [] && (LowestClear(s.bitmap, 0).None? ==> HeadResident(s))
    ensures s.pending != []
    ensures Inv(c, Arrive(c, s)) && SameViews(c, s, Arrive(c, s))
  {
    ArriveStructure(c, s);
    match LowestClear(s.bitmap, 0)
    case Some(k) =>
      ArriveInFreeFrameViews(c, s, k);
      ArriveInFreeFrameLists(c, s, k);
    case None =>
      ArriveOverVictimViews(c, s);
      ArriveOverVictimDistinct(c, s);
      ArriveOverVictimFlight(c, s);
  }

  lemma OneBlockRewritten(pages: map<PageId, Entry>, swap: seq<seq<Byte>>, pages': map<PageId, Entry>,
                          swap': seq<seq<Byte>>, v: PageId)
    requires BlocksDistinct(pages) && NoneBlank(pages, swap) && v in pages && |swap'| == |swap|
    requires pages'.Keys == pages.Keys && forall p :: p in pages ==> pages'[p].swapPosition == pages[p].swapPosition
    requires forall b :: 0 <= b < |swap| && b != pages[v].swapPosition ==> swap'[b] == swap[b]
    ensures NoneBlank(pages', swap') <==> !Blank(swap'[pages[v].swapPosition])
  {
    assert v in pages';
  }

  lemma ReservedIffNotBlank(pages: map<PageId, Entry>, swap: seq<seq<Byte>>, pages': map<PageId, Entry>,
                            swap': seq<seq<Byte>>, v: PageId, content: seq<Byte>)
    requires BlocksDistinct(pages) && NoneBlank(pages, swap) && v in pages && |swap'| == |swap|
    requires pages'.Keys == pages.Keys && forall p :: p in pages ==> pages'[p].swapPosition == pages[p].swapPosition
    requires forall b :: 0 <= b < |swap| && b != pages[v].swapPosition ==> swap'[b] == swap[b]
    requires swap'[pages[v].swapPosition] == content && (!pages[v].modified ==> content == swap[pages[v].swapPosition])
    ensures NoneBlank(pages', swap') <==> (pages[v].modified ==> !Blank(content))
  {
    OneBlockRewritten(pages, swap, pages', swap', v);
  }

  lemma PositionsExchanged(pages: map<PageId, Entry>, v: PageId, p: PageId, gone: Entry, here: Entry)
    requires v in pages && p in pages && p != v
    requires gone.swapPosition == pages[v].swapPosition && here.swapPosition == pages[p].swapPosition
    ensures var after := pages[v := gone][p := here];
      after.Keys == pages.Keys && forall q :: q in pages ==> after[q].swapPosition == pages[q].swapPosition
  {
  }

  lemma ArriveOverVictimReservedIff(c: Config, s: Memory)
    requires Inv(c, s) && s.replies != [] && BlocksReserved(c, s) && LowestClear(s.bitmap, 0).None? && HeadResident(s)
    ensures WellFormed(c, Arrive(c, s))
    ensures BlocksReserved(c, Arrive(c, s)) <==> (s.pages[s.order[0]].modified ==> !Blank(View(c, s, s.order[0])))
  {
    var t, v := Arrive(c, s), s.order[0];
    ArriveOverVictimWellFormed(c, s);
    ArriveOverVictimContents(c, s);
    PositionsExchanged(s.pages, v, s.pending[0], s.pages[v].(present := false, modified := false),
                       s.pages[s.pending[0]].(frame := s.pages[v].frame, present := true));
    ReservedIffNotBlank(s.pages, s.swap, t.pages, t.swap, v, View(c, s, v));
  }

  lemma ArriveInFreeFrameReserved(c: Config, s: Memory, k: nat)
    requires Inv(c, s) && s.replies != [] && BlocksReserved(c, s) && LowestClear(s.bitmap, 0) == Some(k)
    ensures WellFormed(c, Arrive(c, s)) && BlocksReserved(c, Arrive(c, s))
  {
    ArriveInFreeFrameViews(c, s, k);
  }

  /** The block of a victim stays reserved exactly when the victim is clean or its frame does not look free. */
  lemma ArriveKeepsReservedIff(c: Config, s: Memory)
    requires Inv(c, s) && s.replies != [] && BlocksReserved(c, s) &&
      (LowestClear(s.bitmap, 0).None? ==> HeadResident(s))
    ensures s.pending != []
    ensures WellFormed(c, Arrive(c, s))
    ensures BlocksReserved(c, Arrive(c, s)) <==>
      (LowestClear(s.bitmap, 0).None? && s.pages[s.order[0]].modified ==> !Blank(View(c, s, s.order[0])))
  {
    match LowestClear(s.bitmap, 0)
    case Some(k) => ArriveInFreeFrameReserved(c, s, k);
    case None => ArriveOverVictimReservedIff(c, s);
  }

  // ----- MOV_IN and MOV_OUT

  /** The bytes behind a displacement inside a present page are those of its content. */
  lemma ResidentBytes(c: Config, s: Memory, p: PageId, d: nat, n: nat)
    requires WellFormed(c, s) && Resident(s, p) && d + n <= c.pageSize
    ensures Addressable(c, s, p, d, n)
    ensures var a := Base(c, s.pages[p].frame) + d; s.frames[a..a + n] == View(c, s, p)[d..d + n]
  {
    BaseBefore(c, s.pages[p].frame, c.frameCount);
    SliceOfSlice(s.frames, Base(c, s.pages[p].frame), c.pageSize, d, n);
  }

  lemma TouchKeeps(c: Config, s: Memory, p: PageId)
    requires Inv(c, s) && Resident(s, p)
    ensures Inv(c, TouchPage(c, s, p)) && SameViews(c, s, TouchPage(c, s, p))
    ensures BlocksReserved(c, s) ==> BlocksReserved(c, TouchPage(c, s, p))
  {
    TouchStructure(c, s, p);
    ListsKeep(c, s, TouchPage(c, s, p));
  }

  lemma StoreFrames(c: Config, s: Memory, p: PageId, d: nat, w: seq<Byte>)
    requires WellFormed(c, s) && FramesOwned(s.pages, s.bitmap) && Resident(s, p) && d + |w| <= c.pageSize
    requires Addressable(c, s, p, d, |w|) && WellFormed(c, StoreBytes(c, s, p, d, w))
    ensures var t := StoreBytes(c, s, p, d, w);
      && View(c, t, p) == Splice(View(c, s, p), d, w)
      && (forall q :: q in s.pages && q != p ==> View(c, t, q) == View(c, s, q))
  {
    WriteFrame(c, s.frames, s.pages[p].frame, d, w);
    var t := StoreBytes(c, s, p, d, w);
    forall q | q in s.pages && q != p ensures View(c, t, q) == View(c, s, q) {
      if s.pages[q].present {
        assert s.pages[q].frame != s.pages[p].frame;
      }
    }
  }

  lemma StoreViews(c: Config, s: Memory, p: PageId, d: nat, w: seq<Byte>)
    requires Inv(c, s) && Resident(s, p) && d + |w| <= c.pageSize
    ensures Addressable(c, s, p, d, |w|)
    ensures var t := StoreBytes(c, s, p, d, w);
      && WellFormed(c, t)
      && View(c, t, p) == Splice(View(c, s, p), d, w)
      && (forall q :: q in s.pages && q != p ==> View(c, t, q) == View(c, s, q))
      && CleanMatchesSwap(c, t)
  {
    StoreFits(c, s, p, d, |w|);
    StoreWellFormed(c, s, p, d, w);
    StoreFrames(c, s, p, d, w);
  }

  lemma StoreFlight(pages: map<PageId, Entry>, swap: seq<seq<Byte>>, pending: seq<PageId>, requests: seq<nat>,
                    replies: seq<seq<Byte>>, p: PageId)
    requires FaultsAnswered(pages, swap, pending, requests, replies) && p in pages
    ensures FaultsAnswered(pages[p := pages[p].(modified := true)], swap, pending, requests, replies)
  {
  }

  lemma StoreKeeps(c: Config, s: Memory, p: PageId, d: nat, w: seq<Byte>)
    requires Inv(c, s) && Resident(s, p) && d + |w| <= c.pageSize
    ensures Addressable(c, s, p, d, |w|) && Inv(c, StoreBytes(c, s, p, d, w))
    ensures BlocksReserved(c, s) ==> BlocksReserved(c, StoreBytes(c, s, p, d, w))
  {
    StoreViews(c, s, p, d, w);
    StoreStructure(c, s, p, d, w);
    SamePositions(s.pages, StoreBytes(c, s, p, d, w).pages);
    StoreFlight(s.pages, s.swap, s.pending, s.requests, s.replies, p);
  }

  // ----- CREATE_PROCESS

  /** Blocks taken by Reserve: distinct, blank before, zeroed after, and nothing else is written. */
  ghost predicate Taken(swap: seq<seq<Byte>>, r: Reservation)
    requires |r.swap| == |swap|
  {
    && NoDuplicates(r.blocks)
    && (forall i :: 0 <= i < |r.blocks| ==> r.blocks[i] < |swap|)
    && (forall i ::
      0 <= i < |r.blocks| ==> Blank(swap[r.blocks[i]]) && r.swap[r.blocks[i]] == Filled(|swap[r.blocks[i]]|, 0))
    && (forall b :: 0 <= b < |swap| && b !in r.blocks ==> r.swap[b] == swap[b])
  }

  lemma TakeOneMore(swap: seq<seq<Byte>>, b: nat, rest: Reservation)
    requires b < |swap| && |swap[b]| > 0 && Blank(swap[b]) && |rest.swap| == |swap|
    requires Taken(swap[b := Filled(|swap[b]|, 0)], rest)
    ensures Taken(swap, Reservation(rest.swap, [b] + rest.blocks))
  {
    var zeroed := swap[b := Filled(|swap[b]|, 0)];
    assert zeroed[b][0] == 0;
    assert b !in rest.blocks;
    assert rest.swap[b] == zeroed[b];
    var r := Reservation(rest.swap, [b] + rest.blocks);
    forall i | 0 <= i < |r.blocks|
      ensures r.blocks[i] < |swap| && Blank(swap[r.blocks[i]]) && r.swap[r.blocks[i]] == Filled(|swap[r.blocks[i]]|, 0)
    {
      if i > 0 {
        assert r.blocks[i] == rest.blocks[i - 1];
      }
    }
  }

  lemma {:induction false} ReserveFresh(swap: seq<seq<Byte>>, count: nat)
    requires forall b :: 0 <= b < |swap| ==> |swap[b]| > 0
    ensures Taken(swap, Reserve(swap, count))
    decreases count
  {
    if count > 0 && LowestBlank(swap, 0).Some? {
      var b := LowestBlank(swap, 0).value;
      var zeroed := swap[b := Filled(|swap[b]|, 0)];
      ReserveFresh(zeroed, count - 1);
      TakeOneMore(swap, b, Reserve(zeroed, count - 1));
    }
  }

  function BlankCount(swap: seq<seq<Byte>>): nat {
    if swap == [] then 0 else BlankCount(swap[..|swap| - 1]) + if Blank(swap[|swap| - 1]) then 1 else 0
  }

  lemma {:induction false} BlankCountUpdate(swap: seq<seq<Byte>>, b: nat, block: seq<Byte>)
    requires b < |swap| && Blank(swap[b]) && !Blank(block)
    ensures BlankCount(swap[b := block]) + 1 == BlankCount(swap)
  {
    var n := |swap| - 1;
    if b == n {
      assert swap[b := block][..n] == swap[..n];
    } else {
      BlankCountUpdate(swap[..n], b, block);
      assert swap[b := block][..n] == swap[..n][b := block];
    }
  }

  lemma {:induction false} NoBlanks(swap: seq<seq<Byte>>)
    requires forall b :: 0 <= b < |swap| ==> !Blank(swap[b])
    ensures BlankCount(swap) == 0
  {
    if swap != [] { NoBlanks(swap[..|swap| - 1]); }
  }

  /** The file system hands out as many blocks as were asked for, or all the free ones. */
  lemma {:induction false} ReserveTakesWhatThereIs(swap: seq<seq<Byte>>, count: nat)
    requires forall b :: 0 <= b < |swap| ==> |swap[b]| > 0
    ensures var r := Reserve(swap, count);
      && |r.blocks| == (if count <= BlankCount(swap) then count else BlankCount(swap))
      && BlankCount(r.swap) == BlankCount(swap) - |r.blocks|
    decreases count
  {
    if count > 0 {
      match LowestBlank(swap, 0)
      case None => NoBlanks(swap);
      case Some(b) =>
        var zeros := Filled(|swap[b]|, 0);
        assert zeros[0] == 0;
        BlankCountUpdate(swap, b, zeros);
        ReserveTakesWhatThereIs(swap[b := zeros], count - 1);
    }
  }

  /** Reserving hands out a block exactly if it looks free and fewer blocks than are asked for look free in front of
      it. */
  lemma {:induction false} ReservesIff(swap: seq<seq<Byte>>, count: nat, b: nat)
    requires (forall k :: 0 <= k < |swap| ==> |swap[k]| > 0) && b < |swap|
    ensures b in Reserve(swap, count).blocks <==> Blank(swap[b]) && BlankCount(swap[..b]) < count
    decreases count
  {
    if count > 0 {
      match LowestBlank(swap, 0)
      case None =>
      case Some(first) => ReservesFirst(swap, count, b, first);
    }
  }

  lemma {:induction false} ReservesFirst(swap: seq<seq<Byte>>, count: nat, b: nat, first: nat)
    requires (forall k :: 0 <= k < |swap| ==> |swap[k]| > 0) && b < |swap|
    requires count > 0 && LowestBlank(swap, 0) == Some(first)
    ensures b in Reserve(swap, count).blocks <==> Blank(swap[b]) && BlankCount(swap[..b]) < count
    decreases count, 0
  {
    var zeros := Filled(|swap[first]|, 0);
    assert zeros[0] == 0;
    var rest := swap[first := zeros];
    ReservesIff(rest, count - 1, b);
    if b <= first {
      NoBlanks(swap[..b]);
    } else {
      BlankCountUpdate(swap[..b], first, zeros);
      assert rest[..b] == swap[..b][first := zeros];
    }
  }

  /** The block of a live page looks free, and a request for count blocks takes it. */
  ghost predicate BlockIsHandedOut(s: Memory, count: nat, p: PageId) {
    && p in s.pages && s.pages[p].swapPosition < |s.swap|
    && Blank(s.swap[s.pages[p].swapPosition])
    && BlankCount(s.swap[..s.pages[p].swapPosition]) < count
  }

  /** No page needs a block that a request for count blocks takes: without an instruction file the blocks are only
      zeroed, and a modified page is in its frame and will be copied to its block before that is read. */
  ghost predicate Spares(s: Memory, count: nat, fileFound: bool) {
    forall p :: BlockIsHandedOut(s, count, p) ==> !fileFound && s.pages[p].modified
  }

  lemma SparedBlocks(c: Config, s: Memory, count: nat, fileFound: bool)
    requires WellFormed(c, s) && Spares(s, count, fileFound)
    ensures forall p :: p in s.pages && s.pages[p].swapPosition in Reserve(s.swap, count).blocks ==>
      !fileFound && s.pages[p].modified
  {
    forall p | p in s.pages && s.pages[p].swapPosition in Reserve(s.swap, count).blocks
      ensures BlockIsHandedOut(s, count, p)
    {
      ReservesIff(s.swap, count, s.pages[p].swapPosition);
    }
  }

  lemma CreateBlocks(c: Config, s: Memory, pid: Pid, count: nat, fileFound: bool)
    requires WellFormed(c, s) && CanCreate(c, s, pid, count, fileFound)
    ensures var t := Create(c, s, pid, count, fileFound);
      && WellFormed(c, t)
      && (forall p :: p in s.pages ==> p in t.pages && t.pages[p] == s.pages[p])
      && (forall p :: p in s.pages && s.pages[p].swapPosition !in Reserve(s.swap, count).blocks ==>
            t.swap[s.pages[p].swapPosition] == s.swap[s.pages[p].swapPosition])
      && (forall p :: p in t.pages && p !in s.pages ==>
            t.swap[t.pages[p].swapPosition] == Filled(c.pageSize, 0) && !t.pages[p].present && !t.pages[p].modified)
  {
    CreateWellFormed(c, s, pid, count, fileFound);
    ReserveFresh(s.swap, count);
  }

  lemma CreateViews(c: Config, s: Memory, pid: Pid, count: nat, fileFound: bool)
    requires Inv(c, s) && CanCreate(c, s, pid, count, fileFound) && Spares(s, count, fileFound)
    ensures var t := Create(c, s, pid, count, fileFound);
      && WellFormed(c, t) && CleanMatchesSwap(c, t)
      && (forall p :: p in s.pages ==> p in t.pages && View(c, t, p) == View(c, s, p))
      && (forall p :: p in t.pages && p !in s.pages ==> View(c, t, p) == Filled(c.pageSize, 0))
  {
    SparedBlocks(c, s, count, fileFound);
    CreateBlocks(c, s, pid, count, fileFound);
  }

  lemma UnownedMeansDistinct(c: Config, s: Memory, pid: Pid, count: nat)
    requires WellFormed(c, s) && BlocksDistinct(s.pages) && CanCreate(c, s, pid, count, true)
    requires forall p :: p in s.pages ==> s.pages[p].swapPosition !in Reserve(s.swap, count).blocks
    ensures BlocksDistinct(Create(c, s, pid, count, true).pages)
  {
    var t := Create(c, s, pid, count, true);
    CreateWellFormed(c, s, pid, count, true);
    ReserveFresh(s.swap, count);
    var blocks := Reserve(s.swap, count).blocks;
    forall p, q | p in t.pages && q in t.pages && p != q ensures t.pages[p].swapPosition != t.pages[q].swapPosition {
      if p !in s.pages && q !in s.pages {
        assert p.number != q.number;
        assert t.pages[p].swapPosition == blocks[p.number] && t.pages[q].swapPosition == blocks[q.number];
      }
    }
  }

  lemma CreateDistinct(c: Config, s: Memory, pid: Pid, count: nat, fileFound: bool)
    requires Inv(c, s) && CanCreate(c, s, pid, count, fileFound) && Spares(s, count, fileFound)
    ensures BlocksDistinct(Create(c, s, pid, count, fileFound).pages)
  {
    if fileFound {
      SparedBlocks(c, s, count, fileFound);
      UnownedMeansDistinct(c, s, pid, count);
    }
  }

  /** The swap changes away from the blocks of pending pages. */
  lemma FlightUndisturbed(pages: map<PageId, Entry>, swap: seq<seq<Byte>>, pending: seq<PageId>, requests: seq<nat>,
                          replies: seq<seq<Byte>>, pages': map<PageId, Entry>, swap': seq<seq<Byte>>)
    requires FaultsAnswered(pages, swap, pending, requests, replies) && |swap'| == |swap|
    requires forall i :: 0 <= i < |pending| ==>
      pending[i] in pages' && pages'[pending[i]] == pages[pending[i]] &&
      swap'[pages[pending[i]].swapPosition] == swap[pages[pending[i]].swapPosition]
    ensures FaultsAnswered(pages', swap', pending, requests, replies)
  {
  }

  lemma CreateFlight(c: Config, s: Memory, pid: Pid, count: nat, fileFound: bool)
    requires Inv(c, s) && CanCreate(c, s, pid, count, fileFound) && Spares(s, count, fileFound)
    ensures var t := Create(c, s, pid, count, fileFound);
      FaultsAnswered(t.pages, t.swap, t.pending, t.requests, t.replies)
  {
    var t := Create(c, s, pid, count, fileFound);
    SparedBlocks(c, s, count, fileFound);
    CreateBlocks(c, s, pid, count, fileFound);
    FlightUndisturbed(s.pages, s.swap, s.pending, s.requests, s.replies, t.pages, t.swap);
  }

  lemma CreateKeeps(c: Config, s: Memory, pid: Pid, count: nat, fileFound: bool)
    requires Inv(c, s) && CanCreate(c, s, pid, count, fileFound) && Spares(s, count, fileFound)
    ensures Inv(c, Create(c, s, pid, count, fileFound))
  {
    CreateStructure(c, s, pid, count, fileFound);
    CreateViews(c, s, pid, count, fileFound);
    CreateDistinct(c, s, pid, count, fileFound);
    CreateFlight(c, s, pid, count, fileFound);
  }

  /** While no block of a live process looks free, none is handed out, and none looks free afterwards. */
  lemma CreateKeepsReserved(c: Config, s: Memory, pid: Pid, count: nat, fileFound: bool)
    requires WellFormed(c, s) && BlocksReserved(c, s) && CanCreate(c, s, pid, count, fileFound)
    ensures Spares(s, count, fileFound)
    ensures WellFormed(c, Create(c, s, pid, count, fileFound)) && BlocksReserved(c, Create(c, s, pid, count, fileFound))
  {
    CreateBlocks(c, s, pid, count, fileFound);
    ReserveFresh(s.swap, count);
    assert forall p :: p in s.pages ==> s.pages[p].swapPosition !in Reserve(s.swap, count).blocks;
    assert !Blank(Filled(c.pageSize, 0)) by { assert Filled(c.pageSize, 0)[0] == 0; }
  }

  // ----- END_PROCESS

  lemma FinishBlocks(c: Config, s: Memory, pid: Pid)
    requires Inv(c, s) && CanFinish(s, pid)
    ensures forall p :: p in s.pages && p.pid != pid ==>
      Finish(c, s, pid).swap[s.pages[p].swapPosition] == s.swap[s.pages[p].swapPosition]
  {
    var ids := PagesOf(pid, s.sizes[pid]);
    forall p | p in s.pages && p.pid != pid ensures s.pages[p].swapPosition !in Positions(s, ids) {
      forall i | 0 <= i < |ids| ensures Positions(s, ids)[i] != s.pages[p].swapPosition {
        assert ids[i] in s.pages && ids[i] != p;
      }
    }
  }

  lemma FinishViews(c: Config, s: Memory, pid: Pid)
    requires Inv(c, s) && CanFinish(s, pid)
    ensures var t := Finish(c, s, pid);
      && WellFormed(c, t)
      && (forall p :: p in t.pages ==> View(c, t, p) == View(c, s, p))
      && CleanMatchesSwap(c, t)
      && (BlocksReserved(c, s) ==> BlocksReserved(c, t))
  {
    FinishWellFormed(c, s, pid);
    FinishBlocks(c, s, pid);
  }

  lemma FinishKeeps(c: Config, s: Memory, pid: Pid)
    requires Inv(c, s) && CanFinish(s, pid)
    ensures Inv(c, Finish(c, s, pid))
    ensures BlocksReserved(c, s) ==> BlocksReserved(c, Finish(c, s, pid))
  {
    var t := Finish(c, s, pid);
    FinishStructure(c, s, pid);
    FinishWellFormed(c, s, pid);
    FinishViews(c, s, pid);
    SamePositions(s.pages, t.pages);
    FinishBlocks(c, s, pid);
    forall i | 0 <= i < |s.pending| ensures s.pending[i] in t.pages {
      assert s.pending[i] in s.pending;
    }
    FlightUndisturbed(s.pages, s.swap, s.pending, s.requests, s.replies, t.pages, t.swap);
  }

  // ----- accounting

  /** Ending a process gives back exactly its frames, turns its swap blocks blank, and leaves none of its pages in
      pages_to_replace. */
  lemma FinishReleases(c: Config, s: Memory, pid: Pid)
    requires Structure(c, s) && CanFinish(s, pid)
    ensures var t := Finish(c, s, pid);
      && (forall q :: q in s.pages && q.pid == pid && s.pages[q].present ==> !t.bitmap[s.pages[q].frame])
      && (forall q :: q in s.pages && q.pid != pid && s.pages[q].present ==> t.bitmap[s.pages[q].frame])
      && (forall q :: q in s.pages && q.pid == pid ==> Blank(t.swap[s.pages[q].swapPosition]))
      && (forall p :: p in t.order ==> p in s.order && p.pid != pid)
  {
    var t := Finish(c, s, pid);
    FinishStructure(c, s, pid);
    FinishWellFormed(c, s, pid);
    var ids := PagesOf(pid, s.sizes[pid]);
    forall q | q in s.pages && q.pid == pid
      ensures s.pages[q].present ==> !t.bitmap[s.pages[q].frame]
      ensures Blank(t.swap[s.pages[q].swapPosition])
    {
      assert ids[q.number] == q;
      assert Positions(s, ids)[q.number] == s.pages[q].swapPosition;
    }
    forall q | q in s.pages && q.pid != pid && s.pages[q].present ensures t.bitmap[s.pages[q].frame] {
      assert q in t.pages && t.pages[q] == s.pages[q];
    }
    RemoveEachMembers(s.order, ids);
    forall p | p in s.order && p.pid == pid ensures p in ids {
      assert ids[p.number] == p;
    }
  }
}
