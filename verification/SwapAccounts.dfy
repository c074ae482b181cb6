/** Where the blocks of the swap area are: free, owned by a page of a live process, or leaked by a creation whose
    instruction file was missing. */
module SwapAccounts {
  import opened Bytes
  import opened Paging
  import opened PagingStructure
  import opened PagingInvariant
  import opened PagingRuns

  ghost predicate Owned(s: Memory, b: nat) {
    exists p :: p in s.pages && s.pages[p].swapPosition == b
  }

  /** The blocks a creation reserves although it makes no table. */
  function NewLeaks(s: Memory, e: Event): set<nat> {
    if e.Created? && !e.fileFound then set b | b in Reserve(s.swap, e.count).blocks else {}
  }

  /** The blocks that did not look free at first, and all those reserved for nobody since. */
  ghost function LeakedAfter(events: seq<Event>, states: seq<Memory>): set<nat>
    requires |states| >= |events| && states != []
  {
    if events == [] then set b: nat | b < |states[0].swap| && !Blank(states[0].swap[b])
    else LeakedAfter(events[..|events| - 1], states) + NewLeaks(states[|events| - 1], events[|events| - 1])
  }

  /** What is neither free nor owned is leaked, and nothing else is. */
  ghost predicate Accounted(s: Memory, leaked: set<nat>) {
    forall b: nat :: b in leaked <==> b < |s.swap| && !Blank(s.swap[b]) && !Owned(s, b)
  }

  // ----- one message

  lemma SameOwners(s: Memory, t: Memory, leaked: set<nat>)
    requires Accounted(s, leaked) && |t.swap| == |s.swap|
    requires forall b: nat :: Owned(t, b) <==> Owned(s, b)
    requires forall b: nat :: b < |s.swap| && !Owned(s, b) ==> t.swap[b] == s.swap[b]
    ensures Accounted(t, leaked)
  {
  }

  lemma SamePositionsOwn(s: Memory, t: Memory)
    requires t.pages.Keys == s.pages.Keys && forall p ::
      p in s.pages ==> t.pages[p].swapPosition == s.pages[p].swapPosition
    ensures forall b: nat :: Owned(t, b) <==> Owned(s, b)
  {
    forall b: nat ensures Owned(t, b) <==> Owned(s, b) {
      if Owned(s, b) {
        var p :| p in s.pages && s.pages[p].swapPosition == b;
        assert p in t.pages && t.pages[p].swapPosition == b;
      }
      if Owned(t, b) {
        var p :| p in t.pages && t.pages[p].swapPosition == b;
        assert p in s.pages && s.pages[p].swapPosition == b;
      }
    }
  }

  lemma ArriveAccounts(c: Config, s: Memory, leaked: set<nat>)
    requires Inv(c, s) && s.replies != [] && (LowestClear(s.bitmap, 0).None? ==> HeadResident(s)) &&
      Accounted(s, leaked)
    ensures s.pending != [] && Accounted(Arrive(c, s), leaked)
  {
    var t := Arrive(c, s);
    match LowestClear(s.bitmap, 0)
    case Some(k) =>
      ArriveInFreeFramePages(c, s, k);
      SamePositionsOwn(s, t);
      SameOwners(s, t, leaked);
    case None =>
      ArriveOverVictimContents(c, s);
      SamePositionsOwn(s, t);
      assert Owned(s, s.pages[s.order[0]].swapPosition);
      SameOwners(s, t, leaked);
  }

  lemma StoreAccounts(c: Config, s: Memory, p: PageId, d: int, w: seq<Byte>, leaked: set<nat>)
    requires p in s.pages && Addressable(c, s, p, d, |w|) && Accounted(s, leaked)
    ensures Accounted(StoreBytes(c, s, p, d, w), leaked)
  {
    var t := StoreBytes(c, s, p, d, w);
    SamePositionsOwn(s, t);
    SameOwners(s, t, leaked);
  }

  lemma CreatedOwners(c: Config, s: Memory, pid: Pid, count: nat, b: nat)
    requires WellFormed(c, s) && CanCreate(c, s, pid, count, true)
    ensures Owned(Create(c, s, pid, count, true), b) <==> Owned(s, b) || b in Reserve(s.swap, count).blocks
  {
    var t, blocks := Create(c, s, pid, count, true), Reserve(s.swap, count).blocks;
    CreateWellFormed(c, s, pid, count, true);
    if Owned(s, b) {
      var p :| p in s.pages && s.pages[p].swapPosition == b;
      assert p in t.pages && t.pages[p].swapPosition == b;
    }
    if b in blocks {
      var i :| 0 <= i < |blocks| && blocks[i] == b;
      assert PageId(pid, i) in t.pages && t.pages[PageId(pid, i)].swapPosition == b;
    }
    if Owned(t, b) {
      var p :| p in t.pages && t.pages[p].swapPosition == b;
      if p in s.pages {
        assert s.pages[p].swapPosition == b;
      } else {
        assert blocks[p.number] == b;
      }
    }
  }

  lemma CreateAccounts(c: Config, s: Memory, pid: Pid, count: nat, fileFound: bool, leaked: set<nat>)
    requires WellFormed(c, s) && BlocksReserved(c, s) && CanCreate(c, s, pid, count, fileFound) && Accounted(s, leaked)
    ensures Accounted(Create(c, s, pid, count, fileFound), leaked + NewLeaks(s, Created(pid, count, fileFound)))
  {
    var t, blocks := Create(c, s, pid, count, fileFound), Reserve(s.swap, count).blocks;
    ReserveFresh(s.swap, count);
    assert Filled(c.pageSize, 0)[0] == 0;
    forall b: nat
      ensures b in leaked + NewLeaks(s, Created(pid, count, fileFound)) <==>
              b < |t.swap| && !Blank(t.swap[b]) && !Owned(t, b)
    {
      if fileFound {
        CreatedOwners(c, s, pid, count, b);
      } else {
        assert Owned(t, b) <==> Owned(s, b);
      }
      assert b in blocks ==> !Owned(s, b) && t.swap[b] == Filled(c.pageSize, 0);
    }
  }

  lemma PositionOf(c: Config, s: Memory, pid: Pid, p: PageId)
    requires WellFormed(c, s) && BlocksDistinct(s.pages) && pid in s.sizes && p in s.pages
    ensures p.pid == pid <==> s.pages[p].swapPosition in Positions(s, PagesOf(pid, s.sizes[pid]))
  {
    var ids := PagesOf(pid, s.sizes[pid]);
    if p.pid == pid {
      assert ids[p.number] == p && Positions(s, ids)[p.number] == s.pages[p].swapPosition;
    } else {
      forall i | 0 <= i < |ids| ensures Positions(s, ids)[i] != s.pages[p].swapPosition {
        assert ids[i] in s.pages && ids[i] != p;
      }
    }
  }

  lemma FinishedOwners(c: Config, s: Memory, pid: Pid, b: nat)
    requires Inv(c, s) && CanFinish(s, pid)
    ensures var ids := PagesOf(pid, s.sizes[pid]);
      && (b in Positions(s, ids) ==> Owned(s, b) && !Owned(Finish(c, s, pid), b))
      && (b !in Positions(s, ids) ==> (Owned(Finish(c, s, pid), b) <==> Owned(s, b)))
  {
    var t, ids := Finish(c, s, pid), PagesOf(pid, s.sizes[pid]);
    FinishWellFormed(c, s, pid);
    forall p | p in s.pages ensures p.pid == pid <==> s.pages[p].swapPosition in Positions(s, ids) {
      PositionOf(c, s, pid, p);
    }
    if Owned(t, b) {
      var p :| p in t.pages && t.pages[p].swapPosition == b;
      assert p in s.pages && s.pages[p].swapPosition == b;
    }
    if b in Positions(s, ids) {
      var i :| 0 <= i < |ids| && Positions(s, ids)[i] == b;
      assert ids[i] in s.pages && s.pages[ids[i]].swapPosition == b;
    } else if Owned(s, b) {
      var p :| p in s.pages && s.pages[p].swapPosition == b;
      assert p in t.pages && t.pages[p].swapPosition == b;
    }
  }

  lemma FinishAccounts(c: Config, s: Memory, pid: Pid, leaked: set<nat>)
    requires Inv(c, s) && CanFinish(s, pid) && Accounted(s, leaked)
    ensures Accounted(Finish(c, s, pid), leaked)
  {
    var t := Finish(c, s, pid);
    forall b: nat ensures b in leaked <==> b < |t.swap| && !Blank(t.swap[b]) && !Owned(t, b) {
      FinishedOwners(c, s, pid, b);
    }
  }

  lemma StepAccounts(c: Config, s: Memory, e: Event, t: Memory, leaked: set<nat>)
    requires Inv(c, s) && BlocksReserved(c, s) && Next(c, s, e, t) && VictimResident(s, e) && Accounted(s, leaked)
    ensures Accounted(t, leaked + NewLeaks(s, e))
  {
    assert leaked + {} == leaked;
    match e
    case Created(pid, count, fileFound) => CreateAccounts(c, s, pid, count, fileFound, leaked);
    case PageArrived => ArriveAccounts(c, s, leaked);
    case Stored(pid, address, value) =>
      MovOutOfResident(c, s, pid, address, value);
      StoreAccounts(c, s, PageOf(c, pid, address), Displacement(c, address), WordBytes(value), leaked);
    case Finished(pid) => FinishAccounts(c, s, pid, leaked);
    case _ => SamePositionsOwn(s, t); SameOwners(s, t, leaked);
  }

  // ----- whole runs

  lemma {:induction false} AccountsKept(c: Config, events: seq<Event>, states: seq<Memory>, i: nat, leaked: set<nat>)
    requires IsTrace(c, events, states) && i <= |events|
    requires forall j :: 0 <= j < i ==> VictimResident(states[j], events[j]) && NoBlankSwapOut(c, states[j], events[j])
    requires leaked == LeakedAfter(events[..i], states)
    ensures Accounted(states[i], leaked)
  {
    if i == 0 {
      assert forall b: nat :: !Owned(states[0], b);
    } else {
      var before := LeakedAfter(events[..i - 1], states);
      AccountsKept(c, events, states, i - 1, before);
      ReservedKept(c, events, states, i - 1);
      assert events[..i][..i - 1] == events[..i - 1];
      StepAccounts(c, states[i - 1], events[i - 1], states[i], before);
    }
  }

  function BlankBlocks(swap: seq<seq<Byte>>): set<nat> {
    set b: nat | b < |swap| && Blank(swap[b])
  }

  lemma {:induction false} BlankBlocksCount(swap: seq<seq<Byte>>)
    ensures |BlankBlocks(swap)| == BlankCount(swap)
  {
    if swap == [] {
      assert BlankBlocks(swap) == {};
    } else {
      var n := |swap| - 1;
      BlankBlocksCount(swap[..n]);
      assert BlankBlocks(swap) == BlankBlocks(swap[..n]) + if Blank(swap[n]) then {n} else {};
    }
  }

  ghost function PositionsOf(pages: map<PageId, Entry>, ids: set<PageId>): set<nat>
    requires ids <= pages.Keys
  {
    set p | p in ids :: pages[p].swapPosition
  }

  lemma {:induction false} OwnedCount(pages: map<PageId, Entry>, ids: set<PageId>)
    requires ids <= pages.Keys && BlocksDistinct(pages)
    ensures |PositionsOf(pages, ids)| == |ids|
  {
    if ids != {} {
      var p :| p in ids;
      OwnedCount(pages, ids - {p});
      assert PositionsOf(pages, ids) == PositionsOf(pages, ids - {p}) + {pages[p].swapPosition};
    }
  }

  function Below(n: nat): (r: set<nat>)
    ensures |r| == n && forall b: nat :: b in r <==> b < n
  {
    if n == 0 then {} else Below(n - 1) + {n - 1}
  }

  lemma ThreeParts(n: nat, free: set<nat>, owned: set<nat>, leaked: set<nat>)
    requires free + owned + leaked == Below(n) && free !! owned && free !! leaked && owned !! leaked
    ensures |free| + |owned| + |leaked| == n
  {
    assert |free + owned| == |free| + |owned| && |free + owned + leaked| == |free + owned| + |leaked|;
  }

  lemma PositionsOwned(s: Memory, b: nat)
    ensures b in PositionsOf(s.pages, s.pages.Keys) <==> Owned(s, b)
  {
  }

  lemma WholeArea(c: Config, s: Memory, leaked: set<nat>)
    requires WellFormed(c, s) && BlocksReserved(c, s) && Accounted(s, leaked)
    ensures var free, owned := BlankBlocks(s.swap), PositionsOf(s.pages, s.pages.Keys);
      free + owned + leaked == Below(c.swapCount) && free !! owned && free !! leaked && owned !! leaked
  {
    var free, owned := BlankBlocks(s.swap), PositionsOf(s.pages, s.pages.Keys);
    forall b: nat
      ensures b in free + owned + leaked <==> b in Below(c.swapCount)
      ensures !(b in free && b in owned) && !(b in free && b in leaked) && !(b in owned && b in leaked)
    {
      PositionsOwned(s, b);
    }
  }

  lemma AccountedCount(c: Config, s: Memory, leaked: set<nat>)
    requires WellFormed(c, s) && BlocksDistinct(s.pages) && BlocksReserved(c, s) && Accounted(s, leaked)
    ensures BlankCount(s.swap) + |s.pages.Keys| + |leaked| == c.swapCount
  {
    WholeArea(c, s, leaked);
    BlankBlocksCount(s.swap);
    OwnedCount(s.pages, s.pages.Keys);
    ThreeParts(c.swapCount, BlankBlocks(s.swap), PositionsOf(s.pages, s.pages.Keys), leaked);
  }

  /** Over every run that swaps out no page of '0' characters, each swap block is free, owned by one page or leaked,
      and only one of the three: together they are the whole swap area. */
  lemma SwapIsAccountedFor(c: Config, events: seq<Event>, states: seq<Memory>, i: nat)
    requires IsTrace(c, events, states) && (c.algorithm.Fifo? || VictimsResident(events, states))
    requires NoBlankSwapOuts(c, events, states) && i <= |events|
    ensures Accounted(states[i], LeakedAfter(events[..i], states)) && BlocksReserved(c, states[i])
    ensures BlankCount(states[i].swap) + |states[i].pages.Keys| + |LeakedAfter(events[..i], states)| == c.swapCount
  {
    if c.algorithm.Fifo? {
      ServedFirstIsEnough(c, events, states);
    }
    var leaked := LeakedAfter(events[..i], states);
    AccountsKept(c, events, states, i, leaked);
    ReservedKept(c, events, states, i);
    AccountedCount(c, states[i], leaked);
  }

  /** So a new process gets its table exactly if its pages, the pages there are and the blocks leaked so far fit in
      the swap area together: what is leaked is lost for ever. */
  lemma CreationSucceedsIff(c: Config, events: seq<Event>, states: seq<Memory>, i: nat, pid: Pid, count: nat)
    requires IsTrace(c, events, states) && (c.algorithm.Fifo? || VictimsResident(events, states))
    requires NoBlankSwapOuts(c, events, states) && i <= |events| && pid !in states[i].sizes
    ensures CanCreate(c, states[i], pid, count, true) <==>
      count + |states[i].pages.Keys| + |LeakedAfter(events[..i], states)| <= c.swapCount
  {
    SwapIsAccountedFor(c, events, states, i);
    ReserveTakesWhatThereIs(states[i].swap, count);
  }

  lemma {:induction false} LeaksGrow(events: seq<Event>, states: seq<Memory>, i: nat, j: nat)
    requires i <= j <= |events| <= |states| && states != []
    ensures LeakedAfter(events[..i], states) <= LeakedAfter(events[..j], states)
  {
    if i < j {
      LeaksGrow(events, states, i, j - 1);
      assert events[..j][..j - 1] == events[..j - 1];
    }
  }

  /** And what is leaked stays so in every later state of such a run: no page owns it, and no creation is ever given
      it. */
  lemma LeaksAreForEver(c: Config, events: seq<Event>, states: seq<Memory>, i: nat, j: nat, b: nat)
    requires IsTrace(c, events, states) && (c.algorithm.Fifo? || VictimsResident(events, states))
    requires NoBlankSwapOuts(c, events, states) && i <= j <= |events|
    requires b in LeakedAfter(events[..i], states)
    ensures !Owned(states[j], b) && forall count: nat :: b !in Reserve(states[j].swap, count).blocks
  {
    LeaksGrow(events, states, i, j);
    SwapIsAccountedFor(c, events, states, j);
    forall count: nat ensures b !in Reserve(states[j].swap, count).blocks {
      ReservesIff(states[j].swap, count, b);
    }
  }
}
