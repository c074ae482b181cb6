/** The replacement list told from the history of the run: load order under FIFO, order of last reference under LRU. */
module PagingOrder {
  import opened Bytes
  import opened Paging
  import opened PagingStructure
  import opened PagingRuns

  // ----- histories

  /** The index of the last occurrence of p in h, or -1. */
  function LastAt(h: seq<PageId>, p: PageId): (r: int)
    ensures -1 <= r < |h|
  {
    if h == [] then -1 else if h[|h| - 1] == p then |h| - 1 else LastAt(h[..|h| - 1], p)
  }

  ghost predicate SortedByLast(h: seq<PageId>, s: seq<PageId>) {
    forall i, j :: 0 <= i < j < |s| ==> LastAt(h, s[i]) < LastAt(h, s[j])
  }

  /** The page a message brings into a frame. */
  ghost function Loads(s: Memory, e: Event): seq<PageId> {
    if e.PageArrived? && s.pending != [] then [s.pending[0]] else []
  }

  /** The page a message refers to. */
  function Uses(c: Config, e: Event): seq<PageId>
    requires c.pageSize > 0
  {
    match e
    case Faulted(p) => [p]
    case Stored(pid, address, _) => [PageOf(c, pid, address)]
    case Loaded(pid, address) => [PageOf(c, pid, address)]
    case _ => []
  }

  ghost function LoadHistory(events: seq<Event>, states: seq<Memory>): seq<PageId>
    requires |states| >= |events|
  {
    if events == [] then []
    else LoadHistory(events[..|events| - 1], states) + Loads(states[|events| - 1], events[|events| - 1])
  }

  function ReferenceHistory(c: Config, events: seq<Event>): seq<PageId>
    requires c.pageSize > 0
  {
    if events == [] then []
    else ReferenceHistory(c, events[..|events| - 1]) + Uses(c, events[|events| - 1])
  }

  lemma LastAtAppend(h: seq<PageId>, p: PageId, q: PageId)
    ensures LastAt(h + [p], q) == if q == p then |h| else LastAt(h, q)
  {
    assert (h + [p])[..|h|] == h;
  }

  /** A page that was not on the list is used and goes last. */
  lemma SortedAppend(h: seq<PageId>, s: seq<PageId>, p: PageId)
    requires SortedByLast(h, s) && p !in s
    ensures SortedByLast(h + [p], s + [p])
  {
    forall i, j | 0 <= i < j < |s + [p]| ensures LastAt(h + [p], (s + [p])[i]) < LastAt(h + [p], (s + [p])[j]) {
      LastAtAppend(h, p, (s + [p])[i]);
      LastAtAppend(h, p, (s + [p])[j]);
      assert (s + [p])[i] == s[i];
    }
  }

  lemma {:induction false} SortedRemove(h: seq<PageId>, s: seq<PageId>, x: PageId)
    requires SortedByLast(h, s)
    ensures SortedByLast(h, RemoveFirst(s, x))
    ensures forall y :: y in RemoveFirst(s, x) ==> y in s
  {
    if s != [] {
      assert SortedByLast(h, s[1..]);
      SortedRemove(h, s[1..], x);
      var r := RemoveFirst(s[1..], x);
      if s[0] != x {
        forall j | 0 <= j < |r| ensures LastAt(h, s[0]) < LastAt(h, r[j]) {
          assert r[j] in s[1..];
          var k :| 0 <= k < |s[1..]| && s[1..][k] == r[j];
          assert s[k + 1] == r[j];
        }
      }
    }
  }

  lemma {:induction false} SortedRemoveEach(h: seq<PageId>, s: seq<PageId>, ids: seq<PageId>)
    requires SortedByLast(h, s)
    ensures SortedByLast(h, RemoveEach(s, ids))
  {
    if ids != [] {
      SortedRemoveEach(h, s, ids[..|ids| - 1]);
      SortedRemove(h, RemoveEach(s, ids[..|ids| - 1]), ids[|ids| - 1]);
    }
  }

  // ----- FIFO

  ghost function ResidentPart(s: Memory): seq<PageId>
    requires |s.pending| <= |s.order|
  {
    s.order[..|s.order| - |s.pending|]
  }

  lemma {:induction false} RemoveEachFromFront(a: seq<PageId>, b: seq<PageId>, ids: seq<PageId>)
    requires NoDuplicates(a + b) && forall p :: p in ids ==> p !in b
    ensures RemoveEach(a + b, ids) == RemoveEach(a, ids) + b
    ensures NoDuplicates(RemoveEach(a, ids) + b)
  {
    if ids != [] {
      var front, last := ids[..|ids| - 1], ids[|ids| - 1];
      assert ids == front + [last];
      RemoveEachFromFront(a, b, front);
      RemoveFromFront(RemoveEach(a, front), b, last);
    }
  }

  lemma FifoFinish(c: Config, s: Memory, pid: Pid)
    requires Structure(c, s) && Queued(s) && CanFinish(s, pid)
    ensures var t := Finish(c, s, pid);
      && |t.pending| <= |t.order|
      && ResidentPart(t) == RemoveEach(ResidentPart(s), PagesOf(pid, s.sizes[pid]))
  {
    var ids := PagesOf(pid, s.sizes[pid]);
    assert s.order == ResidentPart(s) + s.pending;
    RemoveEachFromFront(ResidentPart(s), s.pending, ids);
  }

  // The lists after a reply was handled.

  lemma ArriveTakesFrame(c: Config, s: Memory)
    requires WellFormed(c, s) && s.replies != [] && s.pending != [] && LowestClear(s.bitmap, 0).Some?
    ensures Arrive(c, s).order == s.order && Arrive(c, s).pending == s.pending[1..]
  {
  }

  /** The oldest pending page joins the resident part a, which first loses n pages at its head. */
  lemma PartAfterArrival(order: seq<PageId>, pending: seq<PageId>, a: seq<PageId>, n: nat, h: seq<PageId>)
    requires order == a + pending && NoDuplicates(order) && pending != [] && n <= |a| && SortedByLast(h, a)
    ensures order[n..][..|order| - n - (|pending| - 1)] == a[n..] + [pending[0]]
    ensures SortedByLast(h + [pending[0]], a[n..] + [pending[0]])
  {
    forall k | n <= k < |a| ensures a[k] != pending[0] {
      assert order[k] == a[k] && order[|a|] == pending[0];
    }
    SortedAppend(h, a[n..], pending[0]);
  }

  lemma QueueParts(c: Config, s: Memory)
    requires Structure(c, s) && Queued(s)
    ensures |s.pending| <= |s.order| && NoDuplicates(s.order) && s.order == ResidentPart(s) + s.pending
    ensures s.replies != [] ==> s.pending != []
  {
  }

  lemma FifoArrive(c: Config, s: Memory, h: seq<PageId>)
    requires Structure(c, s) && Queued(s) && s.replies != [] && SortedByLast(h, ResidentPart(s)) &&
      LowestClear(s.bitmap, 0).Some?
    ensures s.pending != []
    ensures var t := Arrive(c, s);
      |t.pending| <= |t.order| && SortedByLast(h + [s.pending[0]], ResidentPart(t))
  {
    QueueParts(c, s);
    ArriveTakesFrame(c, s);
    PartAfterArrival(s.order, s.pending, ResidentPart(s), 0, h);
    assert s.order[0..] == s.order;
  }

  lemma FifoReplace(c: Config, s: Memory, h: seq<PageId>)
    requires Structure(c, s) && Queued(s) && s.replies != [] && SortedByLast(h, ResidentPart(s)) &&
      LowestClear(s.bitmap, 0).None?
    ensures s.pending != [] && s.order != []
    ensures var t := Arrive(c, s);
      |t.pending| <= |t.order| && SortedByLast(h + [s.pending[0]], ResidentPart(t))
  {
    QueuedHead(c, s);
    QueueParts(c, s);
    ArriveOverVictimOrder(c, s);
    PartAfterArrival(s.order, s.pending, ResidentPart(s), 1, h);
  }

  lemma QuietMessages(c: Config, s: Memory, e: Event, t: Memory)
    requires c.algorithm.Fifo? && WellFormed(c, s) && Next(c, s, e, t)
    requires !e.Faulted? && !e.PageArrived? && !e.Finished?
    ensures t.order == s.order && t.pending == s.pending
  {
  }

  lemma FifoFaulted(c: Config, s: Memory, p: PageId)
    requires c.algorithm.Fifo? && p in s.pages && !s.pages[p].present && |s.pending| <= |s.order|
    ensures var t := RequestLoad(c, s, p); |t.pending| <= |t.order| && ResidentPart(t) == ResidentPart(s)
  {
  }

  ghost predicate InLoadOrder(s: Memory, h: seq<PageId>) {
    |s.pending| <= |s.order| && SortedByLast(h, ResidentPart(s))
  }

  lemma FifoFinished(c: Config, s: Memory, pid: Pid, h: seq<PageId>)
    requires Structure(c, s) && Queued(s) && CanFinish(s, pid) && InLoadOrder(s, h)
    ensures InLoadOrder(Finish(c, s, pid), h)
  {
    FifoFinish(c, s, pid);
    SortedRemoveEach(h, ResidentPart(s), PagesOf(pid, s.sizes[pid]));
  }

  lemma FifoArrived(c: Config, s: Memory, h: seq<PageId>)
    requires Structure(c, s) && Queued(s) && s.replies != [] && InLoadOrder(s, h)
    ensures s.pending != [] && (LowestClear(s.bitmap, 0).None? ==> s.order != [])
    ensures InLoadOrder(Arrive(c, s), h + [s.pending[0]])
  {
    if LowestClear(s.bitmap, 0).Some? { FifoArrive(c, s, h); } else { FifoReplace(c, s, h); }
  }

  lemma SameLists(s: Memory, t: Memory, h: seq<PageId>)
    requires InLoadOrder(s, h) && t.order == s.order && t.pending == s.pending
    ensures InLoadOrder(t, h)
  {
  }

  lemma FifoStep(c: Config, s: Memory, e: Event, t: Memory, h: seq<PageId>)
    requires c.algorithm.Fifo? && Structure(c, s) && Queued(s) && Next(c, s, e, t) && InLoadOrder(s, h)
    ensures InLoadOrder(t, h + Loads(s, e))
  {
    assert h + [] == h;
    if e.PageArrived? {
      FifoArrived(c, s, h);
    } else if e.Finished? {
      FifoFinished(c, s, e.pid, h);
    } else if e.Faulted? {
      FifoFaulted(c, s, e.page);
    } else {
      QuietMessages(c, s, e, t);
      SameLists(s, t, h);
    }
  }

  lemma FifoStepAt(c: Config, events: seq<Event>, states: seq<Memory>, i: nat)
    requires c.algorithm.Fifo? && IsTrace(c, events, states) && i < |events|
    requires InLoadOrder(states[i], LoadHistory(events[..i], states))
    ensures InLoadOrder(states[i + 1], LoadHistory(events[..i + 1], states))
  {
    QueuedKept(c, events, states, i);
    assert events[..i + 1][..i] == events[..i];
    assert Next(c, states[i], events[i], states[i + 1]);
    FifoStep(c, states[i], events[i], states[i + 1], LoadHistory(events[..i], states));
  }

  lemma {:induction false} LoadOrderKept(c: Config, events: seq<Event>, states: seq<Memory>, i: nat)
    requires c.algorithm.Fifo? && IsTrace(c, events, states) && i <= |events|
    ensures InLoadOrder(states[i], LoadHistory(events[..i], states))
  {
    if i == 0 {
      QueuedKept(c, events, states, 0);
    } else {
      LoadOrderKept(c, events, states, i - 1);
      FifoStepAt(c, events, states, i - 1);
    }
  }

  /** With any number of faults in flight, the list is the resident pages in load order followed by the pending pages in
      request order. */
  lemma FifoIsLoadOrder(c: Config, events: seq<Event>, states: seq<Memory>, i: nat)
    requires c.algorithm.Fifo? && IsTrace(c, events, states) && i <= |events|
    ensures Structure(c, states[i]) && Queued(states[i]) &&
      states[i].order == ResidentPart(states[i]) + states[i].pending
    ensures SortedByLast(LoadHistory(events[..i], states), ResidentPart(states[i]))
    ensures forall q :: Resident(states[i], q) <==> q in ResidentPart(states[i])
  {
    QueuedKept(c, events, states, i);
    LoadOrderKept(c, events, states, i);
    QueueParts(c, states[i]);
    forall q ensures Resident(states[i], q) <==> q in ResidentPart(states[i]) {
      if Resident(states[i], q) {
        ResidentInPart(c, states[i], q);
      }
    }
  }

  /** The victim is resident, and every other resident page was loaded after it. */
  lemma FifoVictimIsOldest(c: Config, events: seq<Event>, states: seq<Memory>, i: nat)
    requires c.algorithm.Fifo? && IsTrace(c, events, states)
    requires i < |events| && events[i].PageArrived? && LowestClear(states[i].bitmap, 0).None?
    ensures states[i].order != [] && Resident(states[i], states[i].order[0])
    ensures forall q :: Resident(states[i], q) && q != states[i].order[0] ==>
      LastAt(LoadHistory(events[..i], states), states[i].order[0]) < LastAt(LoadHistory(events[..i], states), q)
  {
    FifoIsLoadOrder(c, events, states, i);
    var s, h := states[i], LoadHistory(events[..i], states);
    QueuedHead(c, s);
    forall q | Resident(s, q) && q != s.order[0] ensures LastAt(h, s.order[0]) < LastAt(h, q) {
      ResidentInPart(c, s, q);
      var j :| 0 <= j < |ResidentPart(s)| && ResidentPart(s)[j] == q;
      assert ResidentPart(s)[0] == s.order[0];
    }
  }

  lemma ResidentInPart(c: Config, s: Memory, q: PageId)
    requires Structure(c, s) && Queued(s) && Resident(s, q)
    ensures q in ResidentPart(s)
  {
    assert s.order == ResidentPart(s) + s.pending;
    assert q in Residents(s.pages);
  }

  // ----- LRU

  lemma LruReference(s: seq<PageId>, h: seq<PageId>, p: PageId)
    requires SortedByLast(h, s)
    ensures SortedByLast(h + [p], RemoveFirst(s, p) + [p])
  {
    RemoveFirstMembers(s, p);
    SortedRemove(h, s, p);
    SortedAppend(h, RemoveFirst(s, p), p);
  }

  // The list after each message that touches it.

  lemma LruFaulted(c: Config, s: Memory, p: PageId)
    requires c.algorithm.Lru? && p in s.pages
    ensures RequestLoad(c, s, p).order == RemoveFirst(s.order, p) + [p]
  {
  }

  lemma LruStored(c: Config, s: Memory, pid: Pid, address: int, value: Word)
    requires c.algorithm.Lru? && c.pageSize > 0 && Resident(s, PageOf(c, pid, address))
    requires Addressable(c, s, PageOf(c, pid, address), Displacement(c, address), 4)
    ensures MovOut(c, s, pid, address, value).order ==
      RemoveFirst(s.order, PageOf(c, pid, address)) + [PageOf(c, pid, address)]
  {
  }

  lemma LruLoaded(c: Config, s: Memory, pid: Pid, address: int)
    requires c.algorithm.Lru? && c.pageSize > 0 && Resident(s, PageOf(c, pid, address))
    ensures MovIn(c, s, pid, address).order == RemoveFirst(s.order, PageOf(c, pid, address)) + [PageOf(c, pid, address)]
  {
  }

  lemma LruArrived(c: Config, s: Memory)
    requires WellFormed(c, s) && s.replies != [] &&
      (s.pending != [] && LowestClear(s.bitmap, 0).None? ==> s.order != [])
    ensures Arrive(c, s).order == s.order || (s.order != [] && Arrive(c, s).order == s.order[1..])
  {
  }

  lemma LruQuiet(c: Config, s: Memory, e: Event, t: Memory)
    requires WellFormed(c, s) && Next(c, s, e, t) && (e.Created? || e.SwapAnswered? || e.Missed?)
    ensures t.order == s.order
  {
  }

  lemma LruUse(c: Config, s: Memory, e: Event, t: Memory, h: seq<PageId>)
    requires c.algorithm.Lru? && WellFormed(c, s) && Next(c, s, e, t) && SortedByLast(h, s.order)
    requires e.Faulted? || e.Stored? || e.Loaded?
    ensures SortedByLast(h + Uses(c, e), t.order)
  {
    match e
    case Faulted(p) =>
      LruFaulted(c, s, p);
      LruReference(s.order, h, p);
    case Stored(pid, address, value) =>
      LruStored(c, s, pid, address, value);
      LruReference(s.order, h, PageOf(c, pid, address));
    case Loaded(pid, address) =>
      LruLoaded(c, s, pid, address);
      LruReference(s.order, h, PageOf(c, pid, address));
  }

  lemma LruStep(c: Config, s: Memory, e: Event, t: Memory, h: seq<PageId>)
    requires c.algorithm.Lru? && WellFormed(c, s) && Next(c, s, e, t) && SortedByLast(h, s.order)
    ensures SortedByLast(h + Uses(c, e), t.order)
  {
    assert h + [] == h;
    if e.Faulted? || e.Stored? || e.Loaded? {
      LruUse(c, s, e, t, h);
    } else if e.PageArrived? {
      LruArrived(c, s);
    } else if e.Finished? {
      SortedRemoveEach(h, s.order, PagesOf(e.pid, s.sizes[e.pid]));
    } else {
      LruQuiet(c, s, e, t);
    }
  }

  lemma LruStepAt(c: Config, events: seq<Event>, states: seq<Memory>, i: nat, h: seq<PageId>, g: seq<PageId>)
    requires c.algorithm.Lru? && IsTrace(c, events, states) && i < |events|
    requires h == ReferenceHistory(c, events[..i]) && g == ReferenceHistory(c, events[..i + 1])
    requires SortedByLast(h, states[i].order)
    ensures SortedByLast(g, states[i + 1].order)
  {
    assert events[..i + 1][..i] == events[..i];
    assert Next(c, states[i], events[i], states[i + 1]);
    LruStep(c, states[i], events[i], states[i + 1], h);
  }

  lemma {:induction false} ReferenceOrderKept(c: Config, events: seq<Event>, states: seq<Memory>, i: nat,
                                              h: seq<PageId>)
    requires c.algorithm.Lru? && IsTrace(c, events, states) && i <= |events| && h == ReferenceHistory(c, events[..i])
    ensures SortedByLast(h, states[i].order)
  {
    if i > 0 {
      var before := ReferenceHistory(c, events[..i - 1]);
      ReferenceOrderKept(c, events, states, i - 1, before);
      LruStepAt(c, events, states, i - 1, before, h);
    }
  }

  lemma SortedMeansDistinct(h: seq<PageId>, s: seq<PageId>)
    requires SortedByLast(h, s)
    ensures NoDuplicates(s)
  {
    forall i, j | 0 <= i < j < |s| ensures s[i] != s[j] {
      assert LastAt(h, s[i]) < LastAt(h, s[j]);
    }
  }

  /** In every state of every run the list is in order of last reference, recomputed from the whole history, and so
      holds no page twice. */
  lemma LruIsReferenceOrder(c: Config, events: seq<Event>, states: seq<Memory>, i: nat)
    requires c.algorithm.Lru? && IsTrace(c, events, states) && i <= |events|
    ensures SortedByLast(ReferenceHistory(c, events[..i]), states[i].order) && NoDuplicates(states[i].order)
  {
    ReferenceOrderKept(c, events, states, i, ReferenceHistory(c, events[..i]));
    SortedMeansDistinct(ReferenceHistory(c, events[..i]), states[i].order);
  }

  /** The head of the list was used before everything else on it. */
  lemma HeadIsFirst(h: seq<PageId>, s: seq<PageId>, q: PageId)
    requires SortedByLast(h, s) && q in s && q != s[0]
    ensures LastAt(h, s[0]) < LastAt(h, q)
  {
    var j :| 0 <= j < |s| && s[j] == q;
  }

  /** The victim of a replacement is resident, and every other resident page was referenced after its last reference. */
  lemma LruVictimIsLeastRecent(c: Config, events: seq<Event>, states: seq<Memory>, i: nat)
    requires c.algorithm.Lru? && IsTrace(c, events, states) && VictimsResident(events, states)
    requires i < |events| && events[i].PageArrived? && LowestClear(states[i].bitmap, 0).None?
    ensures HeadResident(states[i])
    ensures forall q :: Resident(states[i], q) && q != states[i].order[0] ==>
      LastAt(ReferenceHistory(c, events[..i]), states[i].order[0]) < LastAt(ReferenceHistory(c, events[..i]), q)
  {
    LruIsReferenceOrder(c, events, states, i);
    FramesStayApart(c, events, states, i);
    var s, h := states[i], ReferenceHistory(c, events[..i]);
    assert VictimResident(s, events[i]);
    forall q | Resident(s, q) && q != s.order[0] ensures LastAt(h, s.order[0]) < LastAt(h, q) {
      assert q in Residents(s.pages);
      HeadIsFirst(h, s.order, q);
    }
  }

  /** A page whose fault is older than the last reference to every resident page. */
  ghost predicate OldestFault(s: Memory, h: seq<PageId>, f: PageId) {
    f in s.pending && forall q :: Resident(s, q) ==> LastAt(h, f) < LastAt(h, q)
  }

  ghost predicate NoFaultIsOldest(s: Memory, h: seq<PageId>) {
    forall f :: !OldestFault(s, h, f)
  }

  lemma HeadResidentIff(c: Config, s: Memory, h: seq<PageId>)
    requires Structure(c, s) && SortedByLast(h, s.order) && LowestClear(s.bitmap, 0).None?
    ensures HeadResident(s) <==> NoFaultIsOldest(s, h)
  {
    var p := FullMeansListed(c, s);
    var f := s.order[0];
    assert f in s.order;
    if Resident(s, f) {
      forall g | g in s.pending ensures !OldestFault(s, h, g) {
        HeadIsFirst(h, s.order, g);
      }
    } else {
      assert f !in Residents(s.pages);
      forall q | Resident(s, q) ensures LastAt(h, f) < LastAt(h, q) {
        assert q in Residents(s.pages);
        HeadIsFirst(h, s.order, q);
      }
      assert OldestFault(s, h, f);
    }
  }

  /** While the replacements so far took out resident pages, the next one will too exactly if no fault in flight is
      older than the last reference to every resident page. */
  lemma LruVictimIsResidentIff(c: Config, events: seq<Event>, states: seq<Memory>, i: nat)
    requires c.algorithm.Lru? && IsTrace(c, events, states) && i <= |events|
    requires forall j :: 0 <= j < i ==> VictimResident(states[j], events[j])
    requires LowestClear(states[i].bitmap, 0).None?
    ensures HeadResident(states[i]) <==> NoFaultIsOldest(states[i], ReferenceHistory(c, events[..i]))
  {
    ReferenceOrderKept(c, events, states, i, ReferenceHistory(c, events[..i]));
    StructureKept(c, events, states, i);
    HeadResidentIff(c, states[i], ReferenceHistory(c, events[..i]));
  }
}
