/** Where paging stops being invisible: the exact conditions behind the hypotheses of PagingRuns. */
module PagingLimits {
  import opened Bytes
  import opened Paging
  import opened PagingStructure
  import opened PagingInvariant
  import opened PagingRuns

  // ----- the victim

  /** Replacement keeps frames apart exactly when the head of the replacement list is resident. */
  lemma VictimMustBeResident(c: Config, s: Memory, p: PageId, data: seq<Byte>)
    requires WellFormed(c, s) && FramesOwned(s.pages, s.bitmap) && LowestClear(s.bitmap, 0).None? && s.order != []
    requires p in s.pages && !s.pages[p].present && |data| == c.pageSize
    ensures FramesOwned(LoadPage(c, s, p, data).pages, LoadPage(c, s, p, data).bitmap) <==> Resident(s, s.order[0])
  {
    var v, t := s.order[0], LoadPage(c, s, p, data);
    if Resident(s, v) {
      TakeVictimFrame(s.pages, s.bitmap, p, v);
    } else {
      var f := s.pages[v].frame;
      assert s.bitmap[f];
      var q :| q in s.pages && s.pages[q].present && s.pages[q].frame == f;
      assert t.pages[q] == s.pages[q] && t.pages[p].present && t.pages[p].frame == f;
    }
  }

  lemma ArriveKeepsApartIff(c: Config, s: Memory)
    requires Structure(c, s) && s.replies != [] && (LowestClear(s.bitmap, 0).None? ==> s.order != [])
    ensures s.pending != []
    ensures FramesOwned(Arrive(c, s).pages, Arrive(c, s).bitmap) <==> VictimResident(s, PageArrived)
  {
    if LowestClear(s.bitmap, 0).None? {
      VictimMustBeResident(c, s.(replies := s.replies[1..], pending := s.pending[1..]), s.pending[0], s.replies[0]);
    } else {
      ArriveStructure(c, s);
    }
  }

  ghost predicate FramesAreApart(events: seq<Event>, states: seq<Memory>)
    requires |states| == |events| + 1
  {
    forall i :: 0 <= i <= |events| ==> FramesOwned(states[i].pages, states[i].bitmap)
  }

  lemma {:induction false} ApartSoFar(c: Config, events: seq<Event>, states: seq<Memory>, i: nat)
    requires IsTrace(c, events, states) && FramesAreApart(events, states) && i <= |events|
    ensures forall j :: 0 <= j < i ==> VictimResident(states[j], events[j])
    ensures Structure(c, states[i])
  {
    if i == 0 {
      InitialStructure(c, states[0]);
    } else {
      ApartSoFar(c, events, states, i - 1);
      var s, e := states[i - 1], events[i - 1];
      assert Next(c, s, e, states[i]);
      if e.PageArrived? {
        if LowestClear(s.bitmap, 0).None? {
          var p := FullMeansListed(c, s);
        }
        ArriveKeepsApartIff(c, s);
      }
      StructureStep(c, s, e, states[i]);
    }
  }

  /** Over whole runs: present pages sit in distinct frames in every state exactly if every replacement takes out a
      resident page. */
  lemma FramesStayApartIff(c: Config, events: seq<Event>, states: seq<Memory>)
    requires IsTrace(c, events, states)
    ensures FramesAreApart(events, states) <==> VictimsResident(events, states)
  {
    if FramesAreApart(events, states) {
      ApartSoFar(c, events, states, |events|);
    }
    if VictimsResident(events, states) {
      forall i | 0 <= i <= |events| ensures FramesOwned(states[i].pages, states[i].bitmap) {
        StructureKept(c, events, states, i);
      }
    }
  }

  // ----- swap blocks that look free

  ghost predicate AllBlocksReserved(c: Config, events: seq<Event>, states: seq<Memory>)
    requires IsTrace(c, events, states)
  {
    forall i :: 0 <= i <= |events| ==> BlocksReserved(c, states[i])
  }

  lemma BlankSwapOutShows(c: Config, s: Memory, e: Event, t: Memory)
    requires Inv(c, s) && Next(c, s, e, t) && VictimResident(s, e)
    requires BlocksReserved(c, s) && WellFormed(c, t) && BlocksReserved(c, t)
    ensures NoBlankSwapOut(c, s, e)
  {
    if e.PageArrived? {
      ArriveKeepsReservedIff(c, s);
    }
  }

  lemma {:induction false} ReservedSoFar(c: Config, events: seq<Event>, states: seq<Memory>, i: nat)
    requires IsTrace(c, events, states) && VictimsResident(events, states) && AllBlocksReserved(c, events, states)
    requires i <= |events|
    ensures forall j :: 0 <= j < i ==> NoBlankSwapOut(c, states[j], events[j])
  {
    if i > 0 {
      ReservedSoFar(c, events, states, i - 1);
      ReservedKept(c, events, states, i - 1);
      assert Next(c, states[i - 1], events[i - 1], states[i]) && VictimResident(states[i - 1], events[i - 1]);
      BlankSwapOutShows(c, states[i - 1], events[i - 1], states[i]);
    }
  }

  /** Over whole runs: no block of a live process ever looks free exactly if no modified page made only of '0'
      characters is copied to its block. */
  lemma BlocksStayReservedIff(c: Config, events: seq<Event>, states: seq<Memory>)
    requires IsTrace(c, events, states) && (c.algorithm.Fifo? || VictimsResident(events, states))
    ensures AllBlocksReserved(c, events, states) <==> NoBlankSwapOuts(c, events, states)
  {
    if c.algorithm.Fifo? {
      ServedFirstIsEnough(c, events, states);
    }
    if AllBlocksReserved(c, events, states) {
      ReservedSoFar(c, events, states, |events|);
    }
    if NoBlankSwapOuts(c, events, states) {
      forall i | 0 <= i <= |events| ensures BlocksReserved(c, states[i]) {
        ReservedKept(c, events, states, i);
      }
    }
  }

  /** A new process of count pages shares a block with a live page exactly if the block of some live page looks free,
      and fewer than count blocks look free in front of it. */
  lemma BlankBlockIsHandedOutIff(c: Config, s: Memory, pid: Pid, count: nat)
    requires WellFormed(c, s) && BlocksDistinct(s.pages) && CanCreate(c, s, pid, count, true)
    ensures BlocksDistinct(Create(c, s, pid, count, true).pages) <==> forall p :: !BlockIsHandedOut(s, count, p)
  {
    var blocks := Reserve(s.swap, count).blocks;
    forall p | p in s.pages ensures s.pages[p].swapPosition in blocks <==> BlockIsHandedOut(s, count, p) {
      ReservesIff(s.swap, count, s.pages[p].swapPosition);
    }
    if forall p :: !BlockIsHandedOut(s, count, p) {
      UnownedMeansDistinct(c, s, pid, count);
    } else {
      var p :| BlockIsHandedOut(s, count, p);
      SharedWithOwner(c, s, pid, count, p);
    }
  }

  lemma SharedWithOwner(c: Config, s: Memory, pid: Pid, count: nat, owner: PageId)
    requires WellFormed(c, s) && CanCreate(c, s, pid, count, true)
    requires owner in s.pages && s.pages[owner].swapPosition in Reserve(s.swap, count).blocks
    ensures !BlocksDistinct(Create(c, s, pid, count, true).pages)
  {
    CreateWellFormed(c, s, pid, count, true);
    var blocks := Reserve(s.swap, count).blocks;
    var i :| 0 <= i < |blocks| && blocks[i] == s.pages[owner].swapPosition;
    var pages := Create(c, s, pid, count, true).pages;
    assert PageId(pid, i) in pages && owner in pages && PageId(pid, i) != owner;
    assert pages[PageId(pid, i)].swapPosition == pages[owner].swapPosition;
  }

  // ----- content

  /** A creation that takes a block someone needs is seen at once: two pages own one block, or a page differs from its
      block or from its flat memory. */
  lemma TakenBlockShows(c: Config, s: Memory, pid: Pid, count: nat, fileFound: bool, f: Flat, p: PageId)
    requires Inv(c, s) && Refines(c, s, f) && CanCreate(c, s, pid, count, fileFound)
    requires BlockIsHandedOut(s, count, p) && (fileFound || !s.pages[p].modified)
    ensures var t := Create(c, s, pid, count, fileFound);
      WellFormed(c, t) && !(Inv(c, t) && Refines(c, t, FlatStep(c, f, Created(pid, count, fileFound))))
  {
    ReservesIff(s.swap, count, s.pages[p].swapPosition);
    CreateBlocks(c, s, pid, count, fileFound);
    if fileFound {
      SharedWithOwner(c, s, pid, count, p);
    } else {
      ZeroedBlockShows(c, s, pid, count, f, p);
    }
  }

  lemma ZeroedBlockShows(c: Config, s: Memory, pid: Pid, count: nat, f: Flat, p: PageId)
    requires Inv(c, s) && Refines(c, s, f) && CanCreate(c, s, pid, count, false)
    requires BlockIsHandedOut(s, count, p) && !s.pages[p].modified
    ensures var t := Create(c, s, pid, count, false); WellFormed(c, t) && !(CleanMatchesSwap(c, t) && Refines(c, t, f))
  {
    var t, b := Create(c, s, pid, count, false), s.pages[p].swapPosition;
    ReservesIff(s.swap, count, b);
    CreateBlocks(c, s, pid, count, false);
    ReserveFresh(s.swap, count);
    assert t.swap[b] == Filled(c.pageSize, 0) && s.swap[b][0] == FREE_MARK && t.swap[b][0] == 0;
    assert View(c, s, p) == s.swap[b];
    assert Views(c, s)[p] == View(c, s, p) && Views(c, t)[p] == View(c, t, p);
  }

  /** The invariant holds and paging shows the flat memories, in every state of the run. */
  ghost predicate Invisible(c: Config, events: seq<Event>, states: seq<Memory>)
    requires IsTrace(c, events, states)
  {
    forall i :: 0 <= i <= |events| ==> Inv(c, states[i]) && Refines(c, states[i], FlatAfter(c, events[..i]))
  }

  lemma InvisibleSpares(c: Config, events: seq<Event>, states: seq<Memory>, i: nat)
    requires IsTrace(c, events, states) && Invisible(c, events, states) && i < |events|
    ensures CreationSpares(states[i], events[i])
  {
    var s, t, f := states[i], states[i + 1], FlatAfter(c, events[..i]);
    assert Next(c, s, events[i], t);
    assert Inv(c, s) && Refines(c, s, f);
    assert Inv(c, t) && Refines(c, t, FlatAfter(c, events[..i + 1]));
    assert events[..i + 1][..i] == events[..i];
    if events[i].Created? {
      var Created(pid, count, fileFound) := events[i];
      forall p | BlockIsHandedOut(s, count, p) ensures !fileFound && s.pages[p].modified {
        if fileFound || !s.pages[p].modified {
          TakenBlockShows(c, s, pid, count, fileFound, f, p);
        }
      }
    }
  }

  /** The exact boundary, over whole runs of either algorithm: paging is invisible in every state if and only if every
      replacement takes out a resident page and no creation takes a block that is needed. */
  lemma PagingIsInvisibleIff(c: Config, events: seq<Event>, states: seq<Memory>)
    requires IsTrace(c, events, states)
    ensures Invisible(c, events, states) <==> VictimsResident(events, states) && CreationsSpare(events, states)
  {
    if Invisible(c, events, states) {
      InvisibleMeansApart(c, events, states);
      FramesStayApartIff(c, events, states);
      forall i | 0 <= i < |events| ensures CreationSpares(states[i], events[i]) {
        InvisibleSpares(c, events, states, i);
      }
    }
    if VictimsResident(events, states) && CreationsSpare(events, states) {
      forall i | 0 <= i <= |events| ensures Inv(c, states[i]) && Refines(c, states[i], FlatAfter(c, events[..i])) {
        RefinementKept(c, events, states, i);
      }
    }
  }

  lemma InvisibleMeansApart(c: Config, events: seq<Event>, states: seq<Memory>)
    requires IsTrace(c, events, states) && Invisible(c, events, states)
    ensures FramesAreApart(events, states)
  {
    forall i | 0 <= i <= |events| ensures FramesOwned(states[i].pages, states[i].bitmap) {
      assert Inv(c, states[i]);
    }
  }

  // ----- a word across two pages

  /** The page after p is in the frame after p's, and is already marked as modified. */
  ghost predicate NextPageBehind(s: Memory, p: PageId)
    requires p in s.pages
  {
    var q := PageId(p.pid, p.number + 1);
    Resident(s, q) && s.pages[q].frame == s.pages[p].frame + 1 && s.pages[q].modified
  }

  /** The bytes of a store that leaves frame f run into frame f + 1, or into the bytes behind the last frame. */
  lemma CrossingFrames(c: Config, frames: seq<Byte>, f: nat, d: nat, w: seq<Byte>)
    requires FramesFit(c, frames) && f < c.frameCount && d < c.pageSize < d + |w| && |w| <= c.pageSize
    requires Base(c, f) + d + |w| <= |frames|
    ensures var g, k := Splice(frames, Base(c, f) + d, w), c.pageSize - d;
      && FramesFit(c, g)
      && FrameAt(c, g, f) == Splice(FrameAt(c, frames, f), d, w[..k])
      && (f + 1 < c.frameCount ==> FrameAt(c, g, f + 1) == Splice(FrameAt(c, frames, f + 1), 0, w[k..]))
      && (forall j :: 0 <= j < c.frameCount && j != f && j != f + 1 ==> FrameAt(c, g, j) == FrameAt(c, frames, j))
  {
    var k := c.pageSize - d;
    SpliceInTwo(frames, Base(c, f) + d, w, k);
    WriteFrame(c, frames, f, d, w[..k]);
    assert Base(c, f + 1) == Base(c, f) + c.pageSize;
    TailFrames(c, Splice(frames, Base(c, f) + d, w[..k]), f, w[k..]);
  }

  /** The second half, which starts where frame f ends. */
  lemma TailFrames(c: Config, half: seq<Byte>, f: nat, tail: seq<Byte>)
    requires FramesFit(c, half) && f < c.frameCount && |tail| <= c.pageSize && Base(c, f + 1) + |tail| <= |half|
    ensures var g := Splice(half, Base(c, f + 1), tail);
      && FramesFit(c, g)
      && (f + 1 < c.frameCount ==> FrameAt(c, g, f + 1) == Splice(FrameAt(c, half, f + 1), 0, tail))
      && (forall j :: 0 <= j < c.frameCount && j != f + 1 ==> FrameAt(c, g, j) == FrameAt(c, half, j))
  {
    if f + 1 < c.frameCount {
      WriteFrame(c, half, f + 1, 0, tail);
    } else {
      forall j | 0 <= j < c.frameCount
        ensures FrameAt(c, Splice(half, Base(c, f + 1), tail), j) == FrameAt(c, half, j)
      {
        BaseBefore(c, j, f + 1);
        SpliceOutside(half, Base(c, f + 1), tail, Base(c, j), Base(c, j) + c.pageSize);
      }
    }
  }

  /** The store of w at displacement d of p, which reaches into the next page, does to every page what a flat
      memory would, and leaves clean pages equal to their blocks. */
  ghost predicate CrossingIsInvisible(c: Config, s: Memory, p: PageId, d: nat, w: seq<Byte>)
    requires WellFormed(c, s) && p in s.pages && PageId(p.pid, p.number + 1) in s.pages
    requires d < c.pageSize < d + |w| && |w| <= c.pageSize && Addressable(c, s, p, d, |w|)
  {
    var q, t, k := PageId(p.pid, p.number + 1), StoreBytes(c, s, p, d, w), c.pageSize - d;
    && WellFormed(c, t)
    && View(c, t, p) == Splice(View(c, s, p), d, w[..k])
    && View(c, t, q) == Splice(View(c, s, q), 0, w[k..])
    && (forall r :: r in s.pages && r != p && r != q ==> View(c, t, r) == View(c, s, r))
    && CleanMatchesSwap(c, t)
  }

  lemma SameView(c: Config, s: Memory, t: Memory, r: PageId)
    requires WellFormed(c, s) && WellFormed(c, t) && r in s.pages && r in t.pages && t.pages[r] == s.pages[r] &&
      t.swap == s.swap
    requires s.pages[r].present ==> FrameAt(c, t.frames, s.pages[r].frame) == FrameAt(c, s.frames, s.pages[r].frame)
    ensures View(c, t, r) == View(c, s, r)
  {
  }

  lemma FramesApart(pages: map<PageId, Entry>, bitmap: seq<bool>, p: PageId, r: PageId)
    requires FramesOwned(pages, bitmap) && p in pages && r in pages && pages[p].present && pages[r].present && p != r
    ensures pages[r].frame != pages[p].frame
  {
  }

  /** The table, the blocks and the frames after the store. */
  lemma CrossingParts(c: Config, s: Memory, p: PageId, d: nat, w: seq<Byte>, t: Memory)
    requires FramesFit(c, s.frames) && p in s.pages && s.pages[p].frame < c.frameCount
    requires d < c.pageSize < d + |w| && |w| <= c.pageSize && Addressable(c, s, p, d, |w|) &&
      t == StoreBytes(c, s, p, d, w)
    ensures var f, k := s.pages[p].frame, c.pageSize - d;
      && t.pages == s.pages[p := s.pages[p].(modified := true)] && t.swap == s.swap && FramesFit(c, t.frames)
      && FrameAt(c, t.frames, f) == Splice(FrameAt(c, s.frames, f), d, w[..k])
      && (f + 1 < c.frameCount ==> FrameAt(c, t.frames, f + 1) == Splice(FrameAt(c, s.frames, f + 1), 0, w[k..]))
      && (forall j ::
        0 <= j < c.frameCount && j != f && j != f + 1 ==> FrameAt(c, t.frames, j) == FrameAt(c, s.frames, j))
  {
    CrossingFrames(c, s.frames, s.pages[p].frame, d, w);
  }

  lemma CrossingSparesOthers(c: Config, s: Memory, p: PageId, d: nat, w: seq<Byte>, t: Memory, r: PageId)
    requires WellFormed(c, s) && WellFormed(c, t) && FramesOwned(s.pages, s.bitmap) && Resident(s, p) &&
      NextPageBehind(s, p)
    requires d < c.pageSize < d + |w| && |w| <= c.pageSize && Addressable(c, s, p, d, |w|) &&
      t == StoreBytes(c, s, p, d, w)
    requires r in s.pages && r != p && r != PageId(p.pid, p.number + 1)
    ensures t.pages[r] == s.pages[r] && View(c, t, r) == View(c, s, r)
  {
    CrossingParts(c, s, p, d, w, t);
    if s.pages[r].present {
      FramesApart(s.pages, s.bitmap, p, r);
      FramesApart(s.pages, s.bitmap, PageId(p.pid, p.number + 1), r);
    }
    SameView(c, s, t, r);
  }

  lemma CrossingReachesBoth(c: Config, s: Memory, p: PageId, d: nat, w: seq<Byte>, t: Memory)
    requires WellFormed(c, s) && WellFormed(c, t) && Resident(s, p) && NextPageBehind(s, p)
    requires d < c.pageSize < d + |w| && |w| <= c.pageSize && Addressable(c, s, p, d, |w|) &&
      t == StoreBytes(c, s, p, d, w)
    ensures var q, k := PageId(p.pid, p.number + 1), c.pageSize - d;
      && View(c, t, p) == Splice(View(c, s, p), d, w[..k])
      && View(c, t, q) == Splice(View(c, s, q), 0, w[k..])
      && t.pages[p].modified && t.pages[q].modified && t.pages[p].present && t.pages[q].present
  {
    CrossingParts(c, s, p, d, w, t);
  }

  /** A page that is clean after the store is neither of the two, so it still equals its block. */
  lemma CrossingKeepsClean(c: Config, s: Memory, p: PageId, d: nat, w: seq<Byte>, t: Memory, r: PageId)
    requires WellFormed(c, s) && WellFormed(c, t) && FramesOwned(s.pages, s.bitmap) && CleanMatchesSwap(c, s)
    requires Resident(s, p) && NextPageBehind(s, p)
    requires d < c.pageSize < d + |w| && |w| <= c.pageSize && Addressable(c, s, p, d, |w|) &&
      t == StoreBytes(c, s, p, d, w)
    requires r in s.pages
    ensures r in t.pages && (t.pages[r].modified ==> t.pages[r].present)
    ensures !t.pages[r].modified ==> View(c, t, r) == t.swap[t.pages[r].swapPosition]
  {
    CrossingReachesBoth(c, s, p, d, w, t);
    if r != p && r != PageId(p.pid, p.number + 1) {
      CrossingSparesOthers(c, s, p, d, w, t, r);
    }
  }

  lemma CrossingWorks(c: Config, s: Memory, p: PageId, d: nat, w: seq<Byte>)
    requires Inv(c, s) && Resident(s, p) && NextPageBehind(s, p)
    requires d < c.pageSize < d + |w| && |w| <= c.pageSize && Addressable(c, s, p, d, |w|)
    ensures CrossingIsInvisible(c, s, p, d, w)
  {
    var t := StoreBytes(c, s, p, d, w);
    StoreWellFormed(c, s, p, d, w);
    CrossingReachesBoth(c, s, p, d, w, t);
    forall r | r in s.pages && r != p && r != PageId(p.pid, p.number + 1) ensures View(c, t, r) == View(c, s, r) {
      CrossingSparesOthers(c, s, p, d, w, t, r);
    }
    forall r | r in t.pages
      ensures t.pages[r].modified ==> t.pages[r].present
      ensures !t.pages[r].modified ==> View(c, t, r) == t.swap[t.pages[r].swapPosition]
    {
      CrossingKeepsClean(c, s, p, d, w, t, r);
    }
  }

  lemma FirstByteChanges(v: seq<Byte>, w: seq<Byte>)
    requires 0 < |w| <= |v| && w[0] != v[0]
    ensures Splice(v, 0, w) != v
  {
    SpliceElements(v, 0, w);
    assert Splice(v, 0, w)[0] == w[0];
  }

  lemma VisibleInNextPage(c: Config, s: Memory, p: PageId, d: nat, w: seq<Byte>, t: Memory, q: PageId)
    requires WellFormed(c, s) && p in s.pages && q == PageId(p.pid, p.number + 1) && q in s.pages
    requires d < c.pageSize < d + |w| && |w| <= c.pageSize && Addressable(c, s, p, d, |w|) &&
      t == StoreBytes(c, s, p, d, w)
    requires WellFormed(c, t) ==> q in t.pages && View(c, t, q) != Splice(View(c, s, q), 0, w[c.pageSize - d..])
    ensures !CrossingIsInvisible(c, s, p, d, w)
  {
  }

  lemma VisibleInSwap(c: Config, s: Memory, p: PageId, d: nat, w: seq<Byte>, t: Memory, q: PageId)
    requires WellFormed(c, s) && p in s.pages && q == PageId(p.pid, p.number + 1) && q in s.pages
    requires d < c.pageSize < d + |w| && |w| <= c.pageSize && Addressable(c, s, p, d, |w|) &&
      t == StoreBytes(c, s, p, d, w)
    requires WellFormed(c, t) ==>
      q in t.pages && !t.pages[q].modified && View(c, t, q) != t.swap[t.pages[q].swapPosition]
    ensures !CrossingIsInvisible(c, s, p, d, w)
  {
  }

  /** The next page lies behind, but clean: it no longer equals its block. */
  lemma CrossingDirtiesCleanPage(c: Config, s: Memory, p: PageId, d: nat, w: seq<Byte>)
    requires Inv(c, s) && Resident(s, p)
    requires var q := PageId(p.pid, p.number + 1);
      Resident(s, q) && s.pages[q].frame == s.pages[p].frame + 1 && !s.pages[q].modified
    requires d < c.pageSize < d + |w| && |w| <= c.pageSize && Addressable(c, s, p, d, |w|)
    requires w[c.pageSize - d] != View(c, s, PageId(p.pid, p.number + 1))[0]
    ensures !CrossingIsInvisible(c, s, p, d, w)
  {
    var q, t, k := PageId(p.pid, p.number + 1), StoreBytes(c, s, p, d, w), c.pageSize - d;
    CrossingParts(c, s, p, d, w, t);
    FirstByteChanges(View(c, s, q), w[k..]);
    assert t.pages[q] == s.pages[q] && t.swap == s.swap && View(c, s, q) == s.swap[s.pages[q].swapPosition];
    VisibleInSwap(c, s, p, d, w, t, q);
  }

  /** The next page is elsewhere: the tail of the word does not reach it. */
  lemma CrossingMissesPage(c: Config, s: Memory, p: PageId, d: nat, w: seq<Byte>)
    requires Inv(c, s) && Resident(s, p)
    requires var q := PageId(p.pid, p.number + 1);
      q in s.pages && !(s.pages[q].present && s.pages[q].frame == s.pages[p].frame + 1)
    requires d < c.pageSize < d + |w| && |w| <= c.pageSize && Addressable(c, s, p, d, |w|)
    requires w[c.pageSize - d] != View(c, s, PageId(p.pid, p.number + 1))[0]
    ensures !CrossingIsInvisible(c, s, p, d, w)
  {
    var q, t, k := PageId(p.pid, p.number + 1), StoreBytes(c, s, p, d, w), c.pageSize - d;
    CrossingParts(c, s, p, d, w, t);
    FirstByteChanges(View(c, s, q), w[k..]);
    if s.pages[q].present {
      FramesApart(s.pages, s.bitmap, p, q);
    }
    if WellFormed(c, t) {
      SameView(c, s, t, q);
    }
    VisibleInNextPage(c, s, p, d, w, t, q);
  }

  lemma SomeWordShows(c: Config, s: Memory, p: PageId, d: nat) returns (w: seq<Byte>)
    requires Inv(c, s) && Resident(s, p) && PageId(p.pid, p.number + 1) in s.pages && !NextPageBehind(s, p)
    requires d < c.pageSize < d + 4 && 4 <= c.pageSize && Addressable(c, s, p, d, 4)
    ensures |w| == 4 && !CrossingIsInvisible(c, s, p, d, w)
  {
    var q := PageId(p.pid, p.number + 1);
    var b: Byte := if View(c, s, q)[0] == 0 then 1 else 0;
    w := [b, b, b, b];
    if s.pages[q].present && s.pages[q].frame == s.pages[p].frame + 1 {
      CrossingDirtiesCleanPage(c, s, p, d, w);
    } else {
      CrossingMissesPage(c, s, p, d, w);
    }
  }

  /** A word may cross into the next page, whatever its value, exactly when that page lies behind in memory
      and is modified already. */
  lemma CrossingExactly(c: Config, s: Memory, p: PageId, d: nat)
    requires Inv(c, s) && Resident(s, p)
    requires PageId(p.pid, p.number + 1) in s.pages
    requires d < c.pageSize < d + 4 && 4 <= c.pageSize && Addressable(c, s, p, d, 4)
    ensures (forall w: seq<Byte> :: |w| == 4 ==> CrossingIsInvisible(c, s, p, d, w)) <==> NextPageBehind(s, p)
  {
    if NextPageBehind(s, p) {
      forall w: seq<Byte> | |w| == 4 ensures CrossingIsInvisible(c, s, p, d, w) {
        CrossingWorks(c, s, p, d, w);
      }
    } else {
      var w := SomeWordShows(c, s, p, d);
    }
  }
}
