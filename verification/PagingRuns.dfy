/** Whole runs of the memory process: frames stay apart, and paging is invisible next to a flat memory per process. */
module PagingRuns {
  import opened Bytes
  import opened Paging
  import opened PagingStructure
  import opened PagingInvariant

  /** One handled message each. Stored and Loaded are a translation that found its frame followed by the
      access; Missed is a translation answered with a page fault. */
  datatype Event =
    | Created(pid: Pid, count: nat, fileFound: bool)
    | Faulted(page: PageId)
    | SwapAnswered
    | PageArrived
    | Stored(pid: Pid, address: int, value: Word)
    | Loaded(pid: Pid, address: int)
    | Missed(pid: Pid, address: int)
    | Finished(pid: Pid)

  ghost predicate Initial(c: Config, s: Memory) {
    && WellFormed(c, s)
    && s.sizes == map[] && s.pages == map[]
    && s.order == [] && s.pending == [] && s.requests == [] && s.replies == []
    && (forall k :: 0 <= k < |s.bitmap| ==> !s.bitmap[k])
  }

  /** The messages the memory process may meet, and what it becomes. A process faults on a page of its own that
      is absent and not already asked for, it ends only when none of its pages is pending, and no word
      crosses a page. */
  ghost predicate Next(c: Config, s: Memory, e: Event, t: Memory)
    requires WellFormed(c, s)
  {
    match e
    case Created(pid, count, fileFound) =>
      CanCreate(c, s, pid, count, fileFound) && t == Create(c, s, pid, count, fileFound)
    case Faulted(p) =>
      p in s.pages && !s.pages[p].present && p !in s.pending && t == RequestLoad(c, s, p)
    case SwapAnswered =>
      s.requests != [] && t == AnswerSwap(c, s)
    case PageArrived =>
      s.replies != [] && (s.pending != [] && LowestClear(s.bitmap, 0).None? ==> s.order != []) && t == Arrive(c, s)
    case Stored(pid, address, value) =>
      var p, d := PageOf(c, pid, address), Displacement(c, address);
      WordInPage(c, address) && Resident(s, p) && Addressable(c, s, p, d, 4) && t == MovOut(c, s, pid, address, value)
    case Loaded(pid, address) =>
      WordInPage(c, address) && Resident(s, PageOf(c, pid, address)) && t == MovIn(c, s, pid, address)
    case Missed(pid, address) =>
      pid in s.sizes && !Resident(s, PageOf(c, pid, address)) && t == s
    case Finished(pid) =>
      CanFinish(s, pid) && t == Finish(c, s, pid)
  }

  /** A replacement takes out a resident page. */
  predicate VictimResident(s: Memory, e: Event) {
    e.PageArrived? && LowestClear(s.bitmap, 0).None? ==> HeadResident(s)
  }

  /** A creation takes no block that a page of a live process needs. */
  ghost predicate CreationSpares(s: Memory, e: Event) {
    e.Created? ==> Spares(s, e.count, e.fileFound)
  }

  /** No modified page made only of '0' characters is copied to its block. */
  ghost predicate NoBlankSwapOut(c: Config, s: Memory, e: Event)
    requires WellFormed(c, s)
  {
    e.PageArrived? && LowestClear(s.bitmap, 0).None? && s.order != [] && s.pages[s.order[0]].modified ==>
      !Blank(View(c, s, s.order[0]))
  }

  /** Under LRU a fault is served before anything else refers to a page. */
  predicate FaultServedFirst(c: Config, s: Memory, e: Event) {
    c.algorithm.Lru? && s.pending != [] ==> !e.Faulted? && !e.Stored? && !e.Loaded?
  }

  /** A sequence of handled messages from an empty memory, with the state before and after each. */
  ghost predicate IsTrace(c: Config, events: seq<Event>, states: seq<Memory>) {
    && |states| == |events| + 1
    && Initial(c, states[0])
    && (forall i :: 0 <= i < |states| ==> WellFormed(c, states[i]))
    && (forall i :: 0 <= i < |events| ==> Next(c, states[i], events[i], states[i + 1]))
  }

  /** What is asked of a run: under LRU, that replacements take out resident pages; FIFO always does. */
  predicate VictimsResident(events: seq<Event>, states: seq<Memory>)
    requires |states| == |events| + 1
  {
    forall i :: 0 <= i < |events| ==> VictimResident(states[i], events[i])
  }

  /** And, under both, that creations take no block that is needed. */
  ghost predicate CreationsSpare(events: seq<Event>, states: seq<Memory>)
    requires |states| == |events| + 1
  {
    forall i :: 0 <= i < |events| ==> CreationSpares(states[i], events[i])
  }

  ghost predicate NoBlankSwapOuts(c: Config, events: seq<Event>, states: seq<Memory>)
    requires IsTrace(c, events, states)
  {
    forall i :: 0 <= i < |events| ==> NoBlankSwapOut(c, states[i], events[i])
  }

  predicate FaultsServedFirst(c: Config, events: seq<Event>, states: seq<Memory>)
    requires |states| == |events| + 1
  {
    forall i :: 0 <= i < |events| ==> FaultServedFirst(c, states[i], events[i])
  }

  // ----- frames and lists

  lemma StructureStep(c: Config, s: Memory, e: Event, t: Memory)
    requires Structure(c, s) && Next(c, s, e, t) && VictimResident(s, e)
    ensures Structure(c, t)
  {
    match e
    case Created(pid, count, fileFound) => CreateStructure(c, s, pid, count, fileFound);
    case Faulted(p) => RequestLoadStructure(c, s, p);
    case SwapAnswered => AnswerSwapStructure(c, s);
    case PageArrived => ArriveStructure(c, s);
    case Stored(pid, address, value) =>
      MovOutOfResident(c, s, pid, address, value);
      StoreStructure(c, s, PageOf(c, pid, address), Displacement(c, address), WordBytes(value));
    case Loaded(pid, address) => TouchStructure(c, s, PageOf(c, pid, address));
    case Missed(pid, address) =>
    case Finished(pid) => FinishStructure(c, s, pid);
  }

  lemma MovOutOfResident(c: Config, s: Memory, pid: Pid, address: int, value: Word)
    requires c.pageSize > 0 && Resident(s, PageOf(c, pid, address))
    requires Addressable(c, s, PageOf(c, pid, address), Displacement(c, address), 4)
    ensures MovOut(c, s, pid, address, value) ==
            StoreBytes(c, s, PageOf(c, pid, address), Displacement(c, address), WordBytes(value))
  {
  }

  lemma InitialStructure(c: Config, s: Memory)
    requires Initial(c, s)
    ensures Structure(c, s) && Queued(s)
  {
    assert Residents(s.pages) == {};
  }

  lemma {:induction false} StructureKept(c: Config, events: seq<Event>, states: seq<Memory>, i: nat)
    requires IsTrace(c, events, states) && i <= |events|
    requires forall j :: 0 <= j < i ==> VictimResident(states[j], events[j])
    ensures Structure(c, states[i])
  {
    if i == 0 {
      InitialStructure(c, states[0]);
    } else {
      StructureKept(c, events, states, i - 1);
      StructureStep(c, states[i - 1], events[i - 1], states[i]);
    }
  }

  // ----- when replacements take out resident pages

  /** pages_to_replace is the resident pages followed by the pending pages in request order. */
  ghost predicate Queued(s: Memory) {
    ResidentThenPending(s.order, s.pending, Residents(s.pages))
  }

  lemma QueuedHead(c: Config, s: Memory)
    requires Structure(c, s) && Queued(s) && LowestClear(s.bitmap, 0).None?
    ensures HeadResident(s) && |s.order| > |s.pending|
  {
    var p := FullMeansListed(c, s);
    assert s.order == s.order[..|s.order| - |s.pending|] + s.pending;
    assert p in Residents(s.pages);
  }

  lemma QueuedUse(c: Config, s: Memory, p: PageId)
    requires Structure(c, s) && Queued(s) && Resident(s, p) && (c.algorithm.Lru? ==> s.pending == [])
    ensures ResidentThenPending(Referenced(c, s, p), s.pending, Residents(s.pages))
  {
    if c.algorithm.Lru? {
      QueueTouch(s.order, Residents(s.pages), p);
    }
  }

  lemma QueuedStored(c: Config, s: Memory, p: PageId, d: int, w: seq<Byte>)
    requires Structure(c, s) && Queued(s) && Resident(s, p) && (c.algorithm.Lru? ==> s.pending == [])
    requires Addressable(c, s, p, d, |w|)
    ensures Queued(StoreBytes(c, s, p, d, w))
  {
    QueuedUse(c, s, p);
    SetModified(s.pages, s.bitmap, p);
  }

  lemma QueuedArrived(c: Config, s: Memory)
    requires Structure(c, s) && Queued(s) && s.replies != []
    ensures s.pending != [] && (LowestClear(s.bitmap, 0).None? ==> s.order != [])
    ensures Queued(Arrive(c, s))
  {
    var p, residents := s.pending[0], Residents(s.pages);
    match LowestClear(s.bitmap, 0)
    case Some(k) =>
      ArriveInFreeFramePages(c, s, k);
      QueueAdmit(s.order, s.pending, residents);
      assert Residents(Arrive(c, s).pages) == residents + {p};
    case None =>
      QueuedHead(c, s);
      var v := s.order[0];
      ArriveOverVictimPages(c, s);
      ArriveOverVictimOrder(c, s);
      QueueEvict(s.order, s.pending, residents);
      QueueAdmit(s.order[1..], s.pending, residents - {v});
      ResidentsExchanged(s.pages, v, p, s.pages[v].(present := false, modified := false),
                         s.pages[p].(frame := s.pages[v].frame, present := true));
  }

  lemma QueuedCreated(c: Config, s: Memory, pid: Pid, count: nat, fileFound: bool)
    requires Structure(c, s) && Queued(s) && CanCreate(c, s, pid, count, fileFound)
    ensures Queued(Create(c, s, pid, count, fileFound))
  {
    CreateWellFormed(c, s, pid, count, fileFound);
    NewPagesAbsent(s.pages, Create(c, s, pid, count, fileFound).pages, s.bitmap);
  }

  lemma QueuedFinished(c: Config, s: Memory, pid: Pid)
    requires Structure(c, s) && Queued(s) && CanFinish(s, pid)
    ensures Queued(Finish(c, s, pid))
  {
    FinishResidents(c, s, pid);
    QueueRemoveEach(s.order, s.pending, Residents(s.pages), PagesOf(pid, s.sizes[pid]));
  }

  lemma QueuedStep(c: Config, s: Memory, e: Event, t: Memory)
    requires Structure(c, s) && Queued(s) && Next(c, s, e, t) && FaultServedFirst(c, s, e)
    ensures Queued(t)
  {
    match e
    case Created(pid, count, fileFound) => QueuedCreated(c, s, pid, count, fileFound);
    case Faulted(p) =>
      RequestLoadStructure(c, s, p);
      QueueAppend(s.order, s.pending, Residents(s.pages), p);
    case SwapAnswered =>
    case PageArrived => QueuedArrived(c, s);
    case Stored(pid, address, value) =>
      MovOutOfResident(c, s, pid, address, value);
      QueuedStored(c, s, PageOf(c, pid, address), Displacement(c, address), WordBytes(value));
    case Loaded(pid, address) => QueuedUse(c, s, PageOf(c, pid, address));
    case Missed(pid, address) =>
    case Finished(pid) => QueuedFinished(c, s, pid);
  }

  lemma {:induction false} QueuedKept(c: Config, events: seq<Event>, states: seq<Memory>, i: nat)
    requires IsTrace(c, events, states) && FaultsServedFirst(c, events, states) && i <= |events|
    ensures Structure(c, states[i]) && Queued(states[i])
    ensures LowestClear(states[i].bitmap, 0).None? ==> HeadResident(states[i])
  {
    if i == 0 {
      InitialStructure(c, states[0]);
    } else {
      QueuedKept(c, events, states, i - 1);
      StructureStep(c, states[i - 1], events[i - 1], states[i]);
      QueuedStep(c, states[i - 1], events[i - 1], states[i]);
    }
    if LowestClear(states[i].bitmap, 0).None? {
      QueuedHead(c, states[i]);
    }
  }

  /** Under FIFO with any number of faults in flight, and under LRU while each fault is served before the next
      reference, every replacement takes out a resident page. */
  lemma ServedFirstIsEnough(c: Config, events: seq<Event>, states: seq<Memory>)
    requires IsTrace(c, events, states) && (c.algorithm.Fifo? || FaultsServedFirst(c, events, states))
    ensures VictimsResident(events, states)
  {
    forall i | 0 <= i < |events| ensures VictimResident(states[i], events[i]) {
      QueuedKept(c, events, states, i);
    }
  }

  /** In every state of every run, present pages sit in distinct frames, the bitmap marks exactly these, and the list
      holds exactly the resident and the pending pages; under LRU, of every run whose replacements take out resident
      pages. */
  lemma FramesStayApart(c: Config, events: seq<Event>, states: seq<Memory>, i: nat)
    requires IsTrace(c, events, states) && (c.algorithm.Fifo? || VictimsResident(events, states)) && i <= |events|
    ensures Structure(c, states[i])
  {
    if c.algorithm.Fifo? {
      ServedFirstIsEnough(c, events, states);
    }
    StructureKept(c, events, states, i);
  }

  // ----- flat memory

  /** One array of bytes for each live process. */
  type Flat = map<Pid, seq<Byte>>

  function FlatStep(c: Config, f: Flat, e: Event): Flat {
    match e
    case Created(pid, count, fileFound) =>
      if fileFound then f[pid := Filled(Base(c, count), 0)] else f
    case Stored(pid, address, value) =>
      if pid in f && 0 <= address && address + 4 <= |f[pid]|
      then f[pid := Splice(f[pid], address, WordBytes(value))] else f
    case Finished(pid) => f - {pid}
    case _ => f
  }

  function FlatAfter(c: Config, events: seq<Event>): Flat {
    if events == [] then map[] else FlatStep(c, FlatAfter(c, events[..|events| - 1]), events[|events| - 1])
  }

  /** Some run leads to s, and to f on flat memory. */
  ghost predicate Reaches(c: Config, s: Memory, f: Flat) {
    exists events, states :: IsTrace(c, events, states) && states[|events|] == s && FlatAfter(c, events) == f
  }

  lemma ReachesInitial(c: Config, s: Memory)
    requires Initial(c, s)
    ensures Reaches(c, s, map[])
  {
    var events: seq<Event>, states := [], [s];
    assert IsTrace(c, events, states) && states[|events|] == s && FlatAfter(c, events) == map[];
  }

  lemma RunGoesOn(c: Config, events: seq<Event>, states: seq<Memory>, s: Memory, e: Event, t: Memory)
    requires IsTrace(c, events, states) && states[|events|] == s && WellFormed(c, t) && Next(c, s, e, t)
    ensures IsTrace(c, events + [e], states + [t]) && (states + [t])[|events + [e]|] == t
    ensures FlatAfter(c, events + [e]) == FlatStep(c, FlatAfter(c, events), e)
  {
    assert (events + [e])[..|events|] == events;
  }

  lemma ReachesNext(c: Config, s: Memory, f: Flat, e: Event, t: Memory)
    requires Reaches(c, s, f) && WellFormed(c, s) && WellFormed(c, t) && Next(c, s, e, t)
    ensures Reaches(c, t, FlatStep(c, f, e))
  {
    var events, states :| IsTrace(c, events, states) && states[|events|] == s && FlatAfter(c, events) == f;
    RunGoesOn(c, events, states, s, e, t);
    var events', states' := events + [e], states + [t];
    assert IsTrace(c, events', states') && states'[|events'|] == t && FlatAfter(c, events') == FlatStep(c, f, e);
  }

  /** Page n of a flat memory. */
  function Slice(c: Config, flat: seq<Byte>, n: int): seq<Byte> {
    if 0 <= n && Base(c, n) + c.pageSize <= |flat| then flat[Base(c, n)..Base(c, n) + c.pageSize] else []
  }

  ghost function Views(c: Config, s: Memory): map<PageId, seq<Byte>>
    requires WellFormed(c, s)
  {
    map p | p in s.pages :: View(c, s, p)
  }

  ghost predicate FlatViews(c: Config, sizes: map<Pid, nat>, views: map<PageId, seq<Byte>>, f: Flat) {
    && f.Keys == sizes.Keys
    && (forall pid :: pid in f ==> |f[pid]| == Base(c, sizes[pid]))
    && (forall p: PageId :: p in views <==> p.pid in sizes && 0 <= p.number < sizes[p.pid])
    && (forall p :: p in views ==> Slice(c, f[p.pid], p.number) == views[p])
  }

  ghost predicate Refines(c: Config, s: Memory, f: Flat)
    requires WellFormed(c, s)
  {
    FlatViews(c, s.sizes, Views(c, s), f)
  }

  lemma SameViewsRefine(c: Config, s: Memory, t: Memory, f: Flat)
    requires WellFormed(c, s) && WellFormed(c, t) && SameViews(c, s, t) && Refines(c, s, f)
    ensures Refines(c, t, f)
  {
    assert Views(c, t) == Views(c, s);
  }

  lemma SliceOfPage(c: Config, flat: seq<Byte>, count: nat, n: nat)
    requires |flat| == Base(c, count) && n < count
    ensures Base(c, n) + c.pageSize <= |flat|
  {
    BaseBefore(c, n, count);
  }

  /** A store at an address of page n is the same store inside slice n... */
  lemma FlatStoreHere(c: Config, flat: seq<Byte>, count: nat, n: nat, d: nat, w: seq<Byte>)
    requires |flat| == Base(c, count) && n < count && d + |w| <= c.pageSize
    ensures Base(c, n) + d + |w| <= |flat| && |Slice(c, flat, n)| == c.pageSize
    ensures Slice(c, Splice(flat, Base(c, n) + d, w), n) == Splice(Slice(c, flat, n), d, w)
  {
    SliceOfPage(c, flat, count, n);
    var b := Base(c, n);
    SpliceInside(flat, b + d, w, b, b + c.pageSize);
    assert Slice(c, flat, n) == flat[b..b + c.pageSize];
  }

  /** ...and touches no other slice. */
  lemma FlatStoreElsewhere(c: Config, flat: seq<Byte>, count: nat, n: nat, d: nat, w: seq<Byte>, m: nat)
    requires |flat| == Base(c, count) && n < count && d + |w| <= c.pageSize && m < count && m != n
    ensures Base(c, n) + d + |w| <= |flat|
    ensures Slice(c, Splice(flat, Base(c, n) + d, w), m) == Slice(c, flat, m)
  {
    SliceOfPage(c, flat, count, n);
    SliceOfPage(c, flat, count, m);
    if m < n { BaseBefore(c, m, n); } else { BaseBefore(c, n, m); }
    SpliceOutside(flat, Base(c, n) + d, w, Base(c, m), Base(c, m) + c.pageSize);
  }

  lemma FlatViewsStore(c: Config, sizes: map<Pid, nat>, views: map<PageId, seq<Byte>>, f: Flat, p: PageId, d: nat,
                       w: seq<Byte>)
    requires FlatViews(c, sizes, views, f) && p in views && d + |w| <= c.pageSize
    ensures Base(c, p.number) + d + |w| <= |f[p.pid]| && |views[p]| == c.pageSize
    ensures FlatViews(c, sizes, views[p := Splice(views[p], d, w)],
      f[p.pid := Splice(f[p.pid], Base(c, p.number) + d, w)])
  {
    FlatStoreHere(c, f[p.pid], sizes[p.pid], p.number, d, w);
    var g := f[p.pid := Splice(f[p.pid], Base(c, p.number) + d, w)];
    forall q | q in views && q != p ensures Slice(c, g[q.pid], q.number) == views[q] {
      if q.pid == p.pid {
        FlatStoreElsewhere(c, f[p.pid], sizes[p.pid], p.number, d, w, q.number);
      }
    }
  }

  lemma OneEntryChanged<K, V>(before: map<K, V>, after: map<K, V>, k: K, v: V)
    requires after.Keys == before.Keys && k in before && after[k] == v
    requires forall q :: q in before && q != k ==> after[q] == before[q]
    ensures after == before[k := v]
  {
  }

  lemma StoreChangesOneView(c: Config, s: Memory, p: PageId, d: nat, w: seq<Byte>)
    requires Inv(c, s) && Resident(s, p) && d + |w| <= c.pageSize
    ensures Addressable(c, s, p, d, |w|) && WellFormed(c, StoreBytes(c, s, p, d, w))
    ensures Views(c, StoreBytes(c, s, p, d, w)) == Views(c, s)[p := Splice(Views(c, s)[p], d, w)]
  {
    StoreViews(c, s, p, d, w);
    var t := StoreBytes(c, s, p, d, w);
    assert t.pages.Keys == s.pages.Keys;
    var before, after := Views(c, s), Views(c, t);
    OneEntryChanged(before, after, p, Splice(before[p], d, w));
  }

  lemma StoreRefinesAt(c: Config, s: Memory, f: Flat, p: PageId, d: nat, w: seq<Byte>)
    requires Inv(c, s) && Refines(c, s, f) && Resident(s, p) && d + |w| <= c.pageSize
    ensures Addressable(c, s, p, d, |w|) && Base(c, p.number) + d + |w| <= |f[p.pid]|
    ensures WellFormed(c, StoreBytes(c, s, p, d, w))
    ensures Refines(c, StoreBytes(c, s, p, d, w), f[p.pid := Splice(f[p.pid], Base(c, p.number) + d, w)])
  {
    StoreChangesOneView(c, s, p, d, w);
    FlatViewsStore(c, s.sizes, Views(c, s), f, p, d, w);
  }

  lemma FlatStoreStep(c: Config, t: Memory, f: Flat, p: PageId, d: nat, address: int, value: Word)
    requires p.number >= 0 && address == Base(c, p.number) + d && p.pid in f && address + 4 <= |f[p.pid]|
    requires WellFormed(c, t) && Refines(c, t, f[p.pid := Splice(f[p.pid], Base(c, p.number) + d, WordBytes(value))])
    ensures Refines(c, t, FlatStep(c, f, Stored(p.pid, address, value)))
  {
    assert FlatStep(c, f, Stored(p.pid, address, value)) ==
           f[p.pid := Splice(f[p.pid], Base(c, p.number) + d, WordBytes(value))];
  }

  lemma StoredKeeps(c: Config, s: Memory, f: Flat, p: PageId, d: nat, w: seq<Byte>)
    requires Inv(c, s) && Refines(c, s, f) && Resident(s, p) && d + |w| <= c.pageSize
    ensures Addressable(c, s, p, d, |w|) && Base(c, p.number) + d + |w| <= |f[p.pid]|
    ensures Inv(c, StoreBytes(c, s, p, d, w))
    ensures Refines(c, StoreBytes(c, s, p, d, w), f[p.pid := Splice(f[p.pid], Base(c, p.number) + d, w)])
  {
    StoreKeeps(c, s, p, d, w);
    StoreRefinesAt(c, s, f, p, d, w);
  }

  lemma StoredStep(c: Config, s: Memory, t: Memory, f: Flat, pid: Pid, address: int, value: Word)
    requires Inv(c, s) && Refines(c, s, f) && Next(c, s, Stored(pid, address, value), t)
    ensures Inv(c, t) && Refines(c, t, FlatStep(c, f, Stored(pid, address, value)))
  {
    var p, d, w := PageOf(c, pid, address), Displacement(c, address), WordBytes(value);
    SplitAddress(c, pid, address);
    MovOutOfResident(c, s, pid, address, value);
    StoredKeeps(c, s, f, p, d, w);
    FlatStoreStep(c, t, f, p, d, address, value);
  }

  lemma ZeroSlice(c: Config, count: nat, n: nat)
    requires n < count
    ensures Slice(c, Filled(Base(c, count), 0), n) == Filled(c.pageSize, 0)
  {
    SliceOfPage(c, Filled(Base(c, count), 0), count, n);
  }

  lemma CreateRefines(c: Config, s: Memory, f: Flat, pid: Pid, count: nat, fileFound: bool)
    requires Inv(c, s) && Refines(c, s, f) && CanCreate(c, s, pid, count, fileFound) && Spares(s, count, fileFound)
    ensures var t := Create(c, s, pid, count, fileFound);
      WellFormed(c, t) && Refines(c, t, FlatStep(c, f, Created(pid, count, fileFound)))
  {
    var t, g := Create(c, s, pid, count, fileFound), FlatStep(c, f, Created(pid, count, fileFound));
    CreateWellFormed(c, s, pid, count, fileFound);
    CreateViews(c, s, pid, count, fileFound);
    forall p | p in t.pages ensures Slice(c, g[p.pid], p.number) == View(c, t, p) {
      if p !in s.pages {
        ZeroSlice(c, count, p.number);
      } else {
        assert p.pid != pid;
      }
    }
  }

  lemma FinishRefines(c: Config, s: Memory, f: Flat, pid: Pid)
    requires Inv(c, s) && Refines(c, s, f) && CanFinish(s, pid)
    ensures WellFormed(c, Finish(c, s, pid)) && Refines(c, Finish(c, s, pid), FlatStep(c, f, Finished(pid)))
  {
    FinishWellFormed(c, s, pid);
    FinishViews(c, s, pid);
  }

  lemma InitialKept(c: Config, s: Memory)
    requires Initial(c, s)
    ensures Inv(c, s) && Refines(c, s, map[]) && BlocksReserved(c, s)
  {
    InitialStructure(c, s);
  }

  /** One message, whichever it is. */
  lemma StepKeeps(c: Config, s: Memory, e: Event, t: Memory, f: Flat)
    requires Inv(c, s) && Refines(c, s, f)
    requires Next(c, s, e, t) && VictimResident(s, e) && CreationSpares(s, e)
    ensures Inv(c, t) && Refines(c, t, FlatStep(c, f, e))
  {
    match e
    case Created(pid, count, fileFound) =>
      CreateKeeps(c, s, pid, count, fileFound);
      CreateRefines(c, s, f, pid, count, fileFound);
    case Faulted(p) =>
      RequestLoadKeeps(c, s, p);
      SameViewsRefine(c, s, t, f);
    case SwapAnswered =>
      AnswerSwapKeeps(c, s);
      SameViewsRefine(c, s, t, f);
    case PageArrived =>
      ArriveKeeps(c, s);
      SameViewsRefine(c, s, t, f);
    case Stored(pid, address, value) =>
      StoredStep(c, s, t, f, pid, address, value);
    case Loaded(pid, address) =>
      TouchKeeps(c, s, PageOf(c, pid, address));
      SameViewsRefine(c, s, t, f);
    case Missed(pid, address) =>
    case Finished(pid) =>
      FinishKeeps(c, s, pid);
      FinishRefines(c, s, f, pid);
  }

  lemma {:induction false} RefinementKept(c: Config, events: seq<Event>, states: seq<Memory>, i: nat)
    requires IsTrace(c, events, states) && i <= |events|
    requires forall j :: 0 <= j < i ==> VictimResident(states[j], events[j]) && CreationSpares(states[j], events[j])
    ensures Inv(c, states[i]) && Refines(c, states[i], FlatAfter(c, events[..i]))
  {
    if i == 0 {
      InitialKept(c, states[0]);
    } else {
      RefinementKept(c, events, states, i - 1);
      assert events[..i][..i - 1] == events[..i - 1];
      StepKeeps(c, states[i - 1], events[i - 1], states[i], FlatAfter(c, events[..i - 1]));
    }
  }

  /** Main theorem: after any run the pages of every live process, each read through its frame or its block, are its
      flat memory. Any number of faults may be in flight; under LRU replacements must take out resident pages, and no
      creation may take a block that is needed. PagingLimits shows that nothing less will do. */
  lemma PagingIsInvisible(c: Config, events: seq<Event>, states: seq<Memory>, i: nat)
    requires IsTrace(c, events, states) && (c.algorithm.Fifo? || VictimsResident(events, states))
    requires CreationsSpare(events, states) && i <= |events|
    ensures Inv(c, states[i]) && Refines(c, states[i], FlatAfter(c, events[..i]))
  {
    if c.algorithm.Fifo? {
      ServedFirstIsEnough(c, events, states);
    }
    RefinementKept(c, events, states, i);
  }

  /** And every word that is read is the word the flat memory holds at that address. */
  lemma ReadsAgree(c: Config, events: seq<Event>, states: seq<Memory>, i: nat)
    requires IsTrace(c, events, states) && (c.algorithm.Fifo? || VictimsResident(events, states))
    requires CreationsSpare(events, states) && i < |events| && events[i].Loaded?
    ensures var Loaded(pid, address) := events[i];
      var p, d, f := PageOf(c, pid, address), Displacement(c, address), FlatAfter(c, events[..i]);
      && p in states[i].pages && Addressable(c, states[i], p, d, 4)
      && pid in f && 0 <= address && address + 4 <= |f[pid]|
      && WordAt(c, states[i], p, d) == WordOf(f[pid][address..address + 4])
  {
    PagingIsInvisible(c, events, states, i);
    assert Next(c, states[i], events[i], states[i + 1]);
    FlatWord(c, states[i], FlatAfter(c, events[..i]), events[i].pid, events[i].address);
  }

  // ----- when creations take no block that is needed

  lemma ReservedStep(c: Config, s: Memory, e: Event, t: Memory)
    requires Inv(c, s) && BlocksReserved(c, s) && WellFormed(c, t)
    requires Next(c, s, e, t) && VictimResident(s, e) && NoBlankSwapOut(c, s, e)
    ensures CreationSpares(s, e) && BlocksReserved(c, t)
  {
    match e
    case Created(pid, count, fileFound) => CreateKeepsReserved(c, s, pid, count, fileFound);
    case Faulted(p) => RequestLoadKeeps(c, s, p);
    case SwapAnswered => AnswerSwapKeeps(c, s);
    case PageArrived => ArriveKeepsReservedIff(c, s);
    case Stored(pid, address, value) =>
      MovOutOfResident(c, s, pid, address, value);
      SplitAddress(c, pid, address);
      StoreKeeps(c, s, PageOf(c, pid, address), Displacement(c, address), WordBytes(value));
    case Loaded(pid, address) => TouchKeeps(c, s, PageOf(c, pid, address));
    case Missed(_, _) =>
    case Finished(pid) => FinishKeeps(c, s, pid);
  }

  lemma {:induction false} ReservedKept(c: Config, events: seq<Event>, states: seq<Memory>, i: nat)
    requires IsTrace(c, events, states) && i <= |events|
    requires forall j :: 0 <= j < i ==> VictimResident(states[j], events[j]) && NoBlankSwapOut(c, states[j], events[j])
    ensures forall j :: 0 <= j < i ==> CreationSpares(states[j], events[j])
    ensures Inv(c, states[i]) && BlocksReserved(c, states[i])
  {
    if i == 0 {
      InitialKept(c, states[0]);
    } else {
      ReservedKept(c, events, states, i - 1);
      ReservedStep(c, states[i - 1], events[i - 1], states[i]);
    }
    RefinementKept(c, events, states, i);
  }

  /** As long as no modified page made only of '0' characters is copied to its block, no creation takes a block that
      is needed. */
  lemma NoBlankSwapOutsIsEnough(c: Config, events: seq<Event>, states: seq<Memory>)
    requires IsTrace(c, events, states) && (c.algorithm.Fifo? || VictimsResident(events, states))
    requires NoBlankSwapOuts(c, events, states)
    ensures CreationsSpare(events, states)
  {
    if c.algorithm.Fifo? {
      ServedFirstIsEnough(c, events, states);
    }
    ReservedKept(c, events, states, |events|);
  }

  lemma FlatBytes(c: Config, s: Memory, f: Flat, p: PageId, d: nat, n: nat)
    requires WellFormed(c, s) && Refines(c, s, f) && Resident(s, p) && d + n <= c.pageSize
    ensures Addressable(c, s, p, d, n) && p.pid in f && Base(c, p.number) + d + n <= |f[p.pid]|
    ensures var a := Base(c, s.pages[p].frame) + d;
      s.frames[a..a + n] == f[p.pid][Base(c, p.number) + d..Base(c, p.number) + d + n]
  {
    ResidentBytes(c, s, p, d, n);
    assert Views(c, s)[p] == View(c, s, p);
    SliceOfPage(c, f[p.pid], s.sizes[p.pid], p.number);
    SliceOfSlice(f[p.pid], Base(c, p.number), c.pageSize, d, n);
  }

  lemma FlatWord(c: Config, s: Memory, f: Flat, pid: Pid, address: int)
    requires WellFormed(c, s) && Refines(c, s, f) && WordInPage(c, address) && Resident(s, PageOf(c, pid, address))
    ensures Addressable(c, s, PageOf(c, pid, address), Displacement(c, address), 4)
    ensures pid in f && 0 <= address && address + 4 <= |f[pid]|
    ensures WordAt(c, s, PageOf(c, pid, address), Displacement(c, address)) == WordOf(f[pid][address..address + 4])
  {
    SplitAddress(c, pid, address);
    FlatBytes(c, s, f, PageOf(c, pid, address), Displacement(c, address), 4);
  }
}
