/** The shape of the memory process's state: who owns which frame, which faults are in flight and what the replacement
    list holds. None of it looks at the bytes of a page. */
module PagingStructure {
  import opened Bytes
  import opened Paging

  ghost function Residents(pages: map<PageId, Entry>): set<PageId> {
    set p | p in pages && pages[p].present
  }

  /** Present pages sit in distinct frames, and a bit is set exactly when a present page owns its frame. */
  ghost predicate FramesOwned(pages: map<PageId, Entry>, bitmap: seq<bool>) {
    && (forall p :: p in pages && pages[p].present ==> pages[p].frame < |bitmap| && bitmap[pages[p].frame])
    && (forall p, q :: p in pages && q in pages && pages[p].present && pages[q].present && p != q
          ==> pages[p].frame != pages[q].frame)
    && (forall k :: 0 <= k < |bitmap| && bitmap[k] ==>
          exists p :: p in pages && pages[p].present && pages[p].frame == k)
  }

  /** list_page holds distinct absent pages, one for each request and reply travelling between the two processes. */
  ghost predicate FaultsListed(pages: map<PageId, Entry>, pending: seq<PageId>, inFlight: nat) {
    && NoDuplicates(pending)
    && |pending| == inFlight
    && (forall i :: 0 <= i < |pending| ==> pending[i] in pages && !pages[pending[i]].present)
  }

  /** pages_to_replace holds each resident page and each pending page once, and nothing else. */
  ghost predicate ListedOnce(order: seq<PageId>, pending: seq<PageId>, residents: set<PageId>) {
    NoDuplicates(order) && forall p :: p in order <==> p in residents || p in pending
  }

  /** pages_to_replace is the resident pages, each once, followed by the pending pages in request order. */
  ghost predicate ResidentThenPending(order: seq<PageId>, pending: seq<PageId>, residents: set<PageId>) {
    && NoDuplicates(order)
    && |pending| <= |order|
    && order[|order| - |pending|..] == pending
    && (forall i :: 0 <= i < |order| - |pending| ==> order[i] in residents)
    && (forall p :: p in residents ==> p in order && p !in pending)
  }

  ghost predicate Structure(c: Config, s: Memory) {
    && WellFormed(c, s)
    && FramesOwned(s.pages, s.bitmap)
    && FaultsListed(s.pages, s.pending, |s.replies| + |s.requests|)
    && ListedOnce(s.order, s.pending, Residents(s.pages))
  }

  /** The page that a replacement would take out is resident. */
  predicate HeadResident(s: Memory) {
    s.order != [] && Resident(s, s.order[0])
  }

  // ----- lists

  lemma {:induction false} RemoveFirstMembers<T>(s: seq<T>, x: T)
    requires NoDuplicates(s)
    ensures NoDuplicates(RemoveFirst(s, x))
    ensures forall y :: y in RemoveFirst(s, x) <==> y in s && y != x
    ensures x !in s ==> RemoveFirst(s, x) == s
  {
    if s != [] {
      RemoveFirstMembers(s[1..], x);
      assert s == [s[0]] + s[1..];
      assert forall y :: y in s <==> y == s[0] || y in s[1..];
      var r := RemoveFirst(s[1..], x);
      assert s[0] !in s[1..];
      assert NoDuplicates([s[0]] + r) by {
        forall i, j | 0 <= i < j < |[s[0]] + r| ensures ([s[0]] + r)[i] != ([s[0]] + r)[j] {
          assert ([s[0]] + r)[j] == r[j - 1];
          assert r[j - 1] in r;
        }
      }
    }
  }

  lemma NoDuplicatesAppend<T>(s: seq<T>, x: T)
    requires NoDuplicates(s) && x !in s
    ensures NoDuplicates(s + [x])
  {
  }

  lemma {:induction false} RemoveEachMembers(s: seq<PageId>, ids: seq<PageId>)
    requires NoDuplicates(s)
    ensures NoDuplicates(RemoveEach(s, ids))
    ensures forall y :: y in RemoveEach(s, ids) <==> y in s && y !in ids
  {
    if ids != [] {
      var front, last := ids[..|ids| - 1], ids[|ids| - 1];
      assert ids == front + [last];
      RemoveEachMembers(s, front);
      RemoveFirstMembers(RemoveEach(s, front), last);
    }
  }

  /** A fault is announced. */
  lemma ListedAppend(order: seq<PageId>, pending: seq<PageId>, residents: set<PageId>, p: PageId)
    requires ListedOnce(order, pending, residents) && p !in residents && p !in pending
    ensures RemoveFirst(order, p) == order
    ensures ListedOnce(order + [p], pending + [p], residents)
  {
    RemoveFirstMembers(order, p);
    NoDuplicatesAppend(order, p);
  }

  /** The oldest pending page becomes resident where it stands. */
  lemma ListedAdmit(order: seq<PageId>, pending: seq<PageId>, residents: set<PageId>)
    requires ListedOnce(order, pending, residents) && pending != []
    ensures ListedOnce(order, pending[1..], residents + {pending[0]})
  {
    assert pending == [pending[0]] + pending[1..];
  }

  /** The resident page at the head leaves. */
  lemma ListedEvict(order: seq<PageId>, pending: seq<PageId>, residents: set<PageId>)
    requires ListedOnce(order, pending, residents) && order != [] && order[0] !in pending
    ensures ListedOnce(order[1..], pending, residents - {order[0]})
  {
    assert order == [order[0]] + order[1..];
    assert order[0] !in order[1..];
  }

  /** A resident page is referenced under LRU, whatever is in flight. */
  lemma ListedTouch(order: seq<PageId>, pending: seq<PageId>, residents: set<PageId>, p: PageId)
    requires ListedOnce(order, pending, residents) && p in residents
    ensures ListedOnce(RemoveFirst(order, p) + [p], pending, residents)
  {
    RemoveFirstMembers(order, p);
    NoDuplicatesAppend(RemoveFirst(order, p), p);
  }

  /** Pages that are not pending are taken off the list. */
  lemma ListedRemoveEach(order: seq<PageId>, pending: seq<PageId>, residents: set<PageId>, ids: seq<PageId>)
    requires ListedOnce(order, pending, residents) && forall p :: p in ids ==> p !in pending
    ensures ListedOnce(RemoveEach(order, ids), pending, residents - (set p | p in ids))
  {
    RemoveEachMembers(order, ids);
  }

  // ----- the list while every reference finds no other fault in flight

  /** A fault is announced. */
  lemma QueueAppend(order: seq<PageId>, pending: seq<PageId>, residents: set<PageId>, p: PageId)
    requires ResidentThenPending(order, pending, residents) && p !in residents && p !in pending
    ensures p !in order
    ensures ResidentThenPending(order + [p], pending + [p], residents)
  {
    var k := |order| - |pending|;
    assert order == order[..k] + pending;
    NoDuplicatesAppend(order, p);
    assert (order + [p])[|order + [p]| - |pending + [p]|..] == order[k..] + [p];
  }

  /** The oldest pending page becomes resident where it stands. */
  lemma QueueAdmit(order: seq<PageId>, pending: seq<PageId>, residents: set<PageId>)
    requires ResidentThenPending(order, pending, residents) && pending != [] && NoDuplicates(pending)
    ensures ResidentThenPending(order, pending[1..], residents + {pending[0]})
  {
    var k := |order| - |pending|;
    assert order[k] == order[k..][0] == pending[0];
    assert order[k + 1..] == order[k..][1..];
    assert forall p :: p in residents ==> p !in pending[1..];
  }

  /** The oldest resident page leaves. */
  lemma QueueEvict(order: seq<PageId>, pending: seq<PageId>, residents: set<PageId>)
    requires ResidentThenPending(order, pending, residents) && |order| > |pending|
    ensures ResidentThenPending(order[1..], pending, residents - {order[0]})
  {
    var k := |order| - |pending|;
    assert order[1..][k - 1..] == order[k..];
    assert order == [order[0]] + order[1..];
  }

  /** A resident page is referenced under LRU while no fault is in flight. */
  lemma QueueTouch(order: seq<PageId>, residents: set<PageId>, p: PageId)
    requires ResidentThenPending(order, [], residents) && p in residents
    ensures ResidentThenPending(RemoveFirst(order, p) + [p], [], residents)
  {
    RemoveFirstMembers(order, p);
    var rest := RemoveFirst(order, p);
    NoDuplicatesAppend(rest, p);
    forall i | 0 <= i < |rest + [p]| ensures (rest + [p])[i] in residents {
      if i < |rest| { assert rest[i] in rest; assert rest[i] in order; }
    }
  }

  lemma {:induction false} RemoveFromFront(a: seq<PageId>, b: seq<PageId>, x: PageId)
    requires NoDuplicates(a + b) && x !in b
    ensures RemoveFirst(a + b, x) == RemoveFirst(a, x) + b
    ensures NoDuplicates(RemoveFirst(a, x) + b)
  {
    RemoveFirstMembers(a + b, x);
    if a != [] {
      assert a + b == [a[0]] + (a[1..] + b);
      assert (a + b)[1..] == a[1..] + b;
      if a[0] != x {
        assert NoDuplicates(a[1..] + b) by {
          forall i, j | 0 <= i < j < |a[1..] + b| ensures (a[1..] + b)[i] != (a[1..] + b)[j] {
            assert (a[1..] + b)[i] == (a + b)[i + 1] && (a[1..] + b)[j] == (a + b)[j + 1];
          }
        }
        RemoveFromFront(a[1..], b, x);
        assert RemoveFirst(a, x) == [a[0]] + RemoveFirst(a[1..], x);
        assert [a[0]] + (RemoveFirst(a[1..], x) + b) == RemoveFirst(a, x) + b;
      }
    } else {
      assert a + b == b;
      assert RemoveFirst(a, x) + b == b;
    }
  }

  /** A page that is not pending is taken off the list. */
  lemma QueueRemove(order: seq<PageId>, pending: seq<PageId>, residents: set<PageId>, p: PageId)
    requires ResidentThenPending(order, pending, residents) && p !in pending
    ensures ResidentThenPending(RemoveFirst(order, p), pending, residents - {p})
  {
    var k := |order| - |pending|;
    var a := order[..k];
    assert order == a + pending;
    RemoveFirstMembers(order, p);
    RemoveFromFront(a, pending, p);
    assert NoDuplicates(a);
    RemoveFirstMembers(a, p);
    var r := RemoveFirst(order, p);
    assert r == RemoveFirst(a, p) + pending;
    forall i | 0 <= i < |r| - |pending| ensures r[i] in residents - {p} {
      assert r[i] == RemoveFirst(a, p)[i];
      assert RemoveFirst(a, p)[i] in RemoveFirst(a, p);
      assert r[i] in a;
      var j :| 0 <= j < k && a[j] == r[i];
      assert order[j] == r[i];
    }
  }

  lemma {:induction false} QueueRemoveEach(order: seq<PageId>, pending: seq<PageId>, residents: set<PageId>,
                                           ids: seq<PageId>)
    requires ResidentThenPending(order, pending, residents)
    requires forall p :: p in ids ==> p !in pending
    ensures ResidentThenPending(RemoveEach(order, ids), pending, residents - (set p | p in ids))
  {
    if ids == [] {
      assert residents - (set p | p in ids) == residents;
    } else {
      var front, last := ids[..|ids| - 1], ids[|ids| - 1];
      assert ids == front + [last];
      QueueRemoveEach(order, pending, residents, front);
      QueueRemove(RemoveEach(order, front), pending, residents - (set p | p in front), last);
      assert residents - (set p | p in front) - {last} == residents - (set p | p in ids);
    }
  }

  // ----- frames

  /** A page takes a frame that was free. */
  lemma TakeFreeFrame(pages: map<PageId, Entry>, bitmap: seq<bool>, p: PageId, k: nat)
    requires FramesOwned(pages, bitmap) && p in pages && !pages[p].present && k < |bitmap| && !bitmap[k]
    ensures FramesOwned(pages[p := pages[p].(frame := k, present := true)], bitmap[k := true])
  {
    var pages', bitmap' := pages[p := pages[p].(frame := k, present := true)], bitmap[k := true];
    forall j | 0 <= j < |bitmap'| && bitmap'[j]
      ensures exists q :: q in pages' && pages'[q].present && pages'[q].frame == j
    {
      if j == k {
        assert p in pages' && pages'[p].present && pages'[p].frame == j;
      } else {
        var q :| q in pages && pages[q].present && pages[q].frame == j;
        assert q in pages' && pages'[q].present && pages'[q].frame == j;
      }
    }
  }

  /** A page takes the frame of a victim that leaves. */
  lemma TakeVictimFrame(pages: map<PageId, Entry>, bitmap: seq<bool>, p: PageId, v: PageId)
    requires FramesOwned(pages, bitmap) && p in pages && !pages[p].present && v in pages && pages[v].present
    ensures FramesOwned(pages[v := pages[v].(present := false, modified := false)]
                             [p := pages[p].(frame := pages[v].frame, present := true)], bitmap)
  {
    var pages' := pages[v := pages[v].(present := false, modified := false)]
                       [p := pages[p].(frame := pages[v].frame, present := true)];
    forall j | 0 <= j < |bitmap| && bitmap[j]
      ensures exists q :: q in pages' && pages'[q].present && pages'[q].frame == j
    {
      var q :| q in pages && pages[q].present && pages[q].frame == j;
      if q == v {
        assert p in pages' && pages'[p].present && pages'[p].frame == j;
      } else {
        assert q in pages' && pages'[q].present && pages'[q].frame == j;
      }
    }
  }

  lemma ResidentsExchanged(pages: map<PageId, Entry>, v: PageId, p: PageId, gone: Entry, here: Entry)
    requires v in pages && p in pages && p != v && !gone.present && here.present
    ensures Residents(pages[v := gone][p := here]) == Residents(pages) - {v} + {p}
  {
  }

  lemma SetModified(pages: map<PageId, Entry>, bitmap: seq<bool>, p: PageId)
    requires FramesOwned(pages, bitmap) && p in pages
    ensures FramesOwned(pages[p := pages[p].(modified := true)], bitmap)
    ensures Residents(pages[p := pages[p].(modified := true)]) == Residents(pages)
  {
    var pages' := pages[p := pages[p].(modified := true)];
    forall j | 0 <= j < |bitmap| && bitmap[j]
      ensures exists q :: q in pages' && pages'[q].present && pages'[q].frame == j
    {
      var q :| q in pages && pages[q].present && pages[q].frame == j;
      assert q in pages' && pages'[q].present && pages'[q].frame == j;
    }
  }

  /** Absent pages join the tables. */
  lemma NewPagesAbsent(pages: map<PageId, Entry>, pages': map<PageId, Entry>, bitmap: seq<bool>)
    requires FramesOwned(pages, bitmap)
    requires forall p :: p in pages ==> p in pages' && pages'[p] == pages[p]
    requires forall p :: p in pages' && p !in pages ==> !pages'[p].present
    ensures FramesOwned(pages', bitmap) && Residents(pages') == Residents(pages)
  {
    forall j | 0 <= j < |bitmap| && bitmap[j]
      ensures exists q :: q in pages' && pages'[q].present && pages'[q].frame == j
    {
      var q :| q in pages && pages[q].present && pages[q].frame == j;
      assert q in pages' && pages'[q].present && pages'[q].frame == j;
    }
  }

  // ----- LOAD_PAGE and the answer of the file system

  lemma RequestLoadStructure(c: Config, s: Memory, p: PageId)
    requires Structure(c, s) && p in s.pages && !s.pages[p].present && p !in s.pending
    ensures Structure(c, RequestLoad(c, s, p))
    ensures RequestLoad(c, s, p).order == s.order + [p]
  {
    ListedAppend(s.order, s.pending, Residents(s.pages), p);
    NoDuplicatesAppend(s.pending, p);
  }

  lemma AnswerSwapStructure(c: Config, s: Memory)
    requires Structure(c, s) && s.requests != []
    ensures Structure(c, AnswerSwap(c, s))
  {
  }

  // ----- GET_FROM_SWAP: the page arrives

  lemma ArriveInFreeFrameWellFormed(c: Config, s: Memory, k: nat)
    requires WellFormed(c, s) && s.replies != [] && s.pending != [] && LowestClear(s.bitmap, 0) == Some(k)
    ensures WellFormed(c, Arrive(c, s))
  {
    var t := Arrive(c, s);
    assert forall q :: q in t.pages <==> q in s.pages;
  }

  lemma ArriveInFreeFramePages(c: Config, s: Memory, k: nat)
    requires WellFormed(c, s) && s.replies != [] && s.pending != [] && LowestClear(s.bitmap, 0) == Some(k)
    ensures var p, t := s.pending[0], Arrive(c, s);
      && p in s.pages && k < c.frameCount && !s.bitmap[k]
      && t.pages == s.pages[p := s.pages[p].(frame := k, present := true)] && t.bitmap == s.bitmap[k := true]
      && t.order == s.order && t.pending == s.pending[1..]
  {
  }

  lemma PendingShrinks(pages: map<PageId, Entry>, pending: seq<PageId>, n: nat, pages': map<PageId, Entry>)
    requires FaultsListed(pages, pending, n) && n > 0
    requires forall i :: 1 <= i < |pending| ==> pending[i] in pages' && !pages'[pending[i]].present
    ensures FaultsListed(pages', pending[1..], n - 1)
  {
  }

  lemma ArriveInFreeFrameStructure(c: Config, s: Memory, k: nat)
    requires Structure(c, s) && s.replies != [] && LowestClear(s.bitmap, 0) == Some(k)
    ensures s.pending != [] && Structure(c, Arrive(c, s))
  {
    var p, t := s.pending[0], Arrive(c, s);
    ArriveInFreeFrameWellFormed(c, s, k);
    ArriveInFreeFramePages(c, s, k);
    TakeFreeFrame(s.pages, s.bitmap, p, k);
    PendingShrinks(s.pages, s.pending, |s.replies| + |s.requests|, t.pages);
    ListedAdmit(s.order, s.pending, Residents(s.pages));
    assert Residents(t.pages) == Residents(s.pages) + {p};
  }

  lemma ArriveOverVictimWellFormed(c: Config, s: Memory)
    requires WellFormed(c, s) && s.replies != [] && s.pending != [] && LowestClear(s.bitmap, 0).None? && s.order != []
    ensures WellFormed(c, Arrive(c, s))
  {
    var t := Arrive(c, s);
    assert forall q :: q in t.pages <==> q in s.pages;
    assert forall q :: q in t.pages ==> t.pages[q].swapPosition == s.pages[q].swapPosition;
  }

  lemma ArriveOverVictimOrder(c: Config, s: Memory)
    requires WellFormed(c, s) && s.replies != [] && s.pending != [] && LowestClear(s.bitmap, 0).None? && s.order != []
    ensures Arrive(c, s).order == s.order[1..] && Arrive(c, s).pending == s.pending[1..]
  {
  }

  lemma ArriveOverVictimPages(c: Config, s: Memory)
    requires WellFormed(c, s) && s.replies != [] && s.pending != [] && LowestClear(s.bitmap, 0).None? && HeadResident(s)
    requires !Resident(s, s.pending[0])
    ensures var p, v, t := s.pending[0], s.order[0], Arrive(c, s);
      && p in s.pages && v in s.pages && p != v
      && t.pages == s.pages[v := s.pages[v].(present := false, modified := false)]
                           [p := s.pages[p].(frame := s.pages[v].frame, present := true)]
      && t.bitmap == s.bitmap
  {
  }

  lemma ArriveOverVictimStructure(c: Config, s: Memory)
    requires Structure(c, s) && s.replies != [] && LowestClear(s.bitmap, 0).None? && HeadResident(s)
    ensures s.pending != [] && Structure(c, Arrive(c, s))
  {
    var p, v, t := s.pending[0], s.order[0], Arrive(c, s);
    ArriveOverVictimWellFormed(c, s);
    ArriveOverVictimPages(c, s);
    ArriveOverVictimOrder(c, s);
    TakeVictimFrame(s.pages, s.bitmap, p, v);
    PendingShrinks(s.pages, s.pending, |s.replies| + |s.requests|, t.pages);
    ListedEvict(s.order, s.pending, Residents(s.pages));
    ListedAdmit(s.order[1..], s.pending, Residents(s.pages) - {v});
    ResidentsExchanged(s.pages, v, p, s.pages[v].(present := false, modified := false),
                       s.pages[p].(frame := s.pages[v].frame, present := true));
  }

  lemma ArriveStructure(c: Config, s: Memory)
    requires Structure(c, s) && s.replies != [] && (LowestClear(s.bitmap, 0).None? ==> HeadResident(s))
    ensures s.pending != [] && Structure(c, Arrive(c, s))
  {
    match LowestClear(s.bitmap, 0)
    case Some(k) => ArriveInFreeFrameStructure(c, s, k);
    case None => ArriveOverVictimStructure(c, s);
  }

  /** A full memory has a resident page, so its replacement list is not empty. */
  lemma FullMeansListed(c: Config, s: Memory) returns (p: PageId)
    requires Structure(c, s) && LowestClear(s.bitmap, 0).None?
    ensures Resident(s, p) && p in s.order
  {
    assert s.bitmap[0];
    p :| p in s.pages && s.pages[p].present && s.pages[p].frame == 0;
    assert p in Residents(s.pages);
  }

  // ----- MOV_IN and MOV_OUT

  lemma TouchList(c: Config, s: Memory, p: PageId)
    requires Structure(c, s) && Resident(s, p)
    ensures ListedOnce(Referenced(c, s, p), s.pending, Residents(s.pages))
    ensures forall i :: 0 <= i < |Referenced(c, s, p)| ==> Referenced(c, s, p)[i] in s.pages
  {
    var order := Referenced(c, s, p);
    if c.algorithm.Lru? {
      ListedTouch(s.order, s.pending, Residents(s.pages), p);
    }
    forall i | 0 <= i < |order| ensures order[i] in s.pages {
      assert order[i] in order;
    }
  }

  lemma TouchStructure(c: Config, s: Memory, p: PageId)
    requires Structure(c, s) && Resident(s, p)
    ensures Structure(c, TouchPage(c, s, p))
  {
    TouchList(c, s, p);
  }

  lemma StoreFits(c: Config, s: Memory, p: PageId, d: nat, n: nat)
    requires WellFormed(c, s) && Resident(s, p) && d + n <= c.pageSize
    ensures Addressable(c, s, p, d, n)
  {
    BaseBefore(c, s.pages[p].frame, c.frameCount);
  }

  lemma StoreWellFormed(c: Config, s: Memory, p: PageId, d: int, w: seq<Byte>)
    requires Structure(c, s) && Resident(s, p) && Addressable(c, s, p, d, |w|)
    ensures WellFormed(c, StoreBytes(c, s, p, d, w))
  {
    TouchList(c, s, p);
  }

  lemma StoreStructure(c: Config, s: Memory, p: PageId, d: int, w: seq<Byte>)
    requires Structure(c, s) && Resident(s, p) && Addressable(c, s, p, d, |w|)
    ensures Structure(c, StoreBytes(c, s, p, d, w))
  {
    TouchList(c, s, p);
    SetModified(s.pages, s.bitmap, p);
  }

  // ----- CREATE_PROCESS and END_PROCESS

  /** The file system answers, and the memory survives the answer: it takes as many blocks from it as the table has
      pages. */
  ghost predicate CanCreate(c: Config, s: Memory, pid: Pid, count: nat, fileFound: bool)
    requires WellFormed(c, s)
  {
    pid !in s.sizes && count <= c.swapCount && (fileFound ==> |Reserve(s.swap, count).blocks| == count)
  }

  lemma CreateWellFormed(c: Config, s: Memory, pid: Pid, count: nat, fileFound: bool)
    requires WellFormed(c, s) && CanCreate(c, s, pid, count, fileFound)
    ensures var t := Create(c, s, pid, count, fileFound);
      && WellFormed(c, t)
      && (forall p :: p in s.pages ==> p in t.pages && t.pages[p] == s.pages[p])
      && (forall p :: p in t.pages && p !in s.pages ==>
            fileFound && p.pid == pid && 0 <= p.number < count &&
            t.pages[p] == Entry(0, false, false, Reserve(s.swap, count).blocks[p.number]))
  {
    var t := Create(c, s, pid, count, fileFound);
    assert forall p :: p in s.pages ==> p.pid != pid;
  }

  lemma CreateStructure(c: Config, s: Memory, pid: Pid, count: nat, fileFound: bool)
    requires Structure(c, s) && CanCreate(c, s, pid, count, fileFound)
    ensures Structure(c, Create(c, s, pid, count, fileFound))
  {
    var t := Create(c, s, pid, count, fileFound);
    CreateWellFormed(c, s, pid, count, fileFound);
    NewPagesAbsent(s.pages, t.pages, s.bitmap);
  }

  ghost predicate CanFinish(s: Memory, pid: Pid) {
    pid in s.sizes && forall p :: p in s.pending ==> p.pid != pid
  }

  lemma FinishWellFormed(c: Config, s: Memory, pid: Pid)
    requires Structure(c, s) && CanFinish(s, pid)
    ensures var t := Finish(c, s, pid);
      && WellFormed(c, t)
      && (forall p :: p in t.pages <==> p in s.pages && p.pid != pid)
      && (forall p :: p in t.pages ==> t.pages[p] == s.pages[p])
  {
    var t := Finish(c, s, pid);
    var ids := PagesOf(pid, s.sizes[pid]);
    RemoveEachMembers(s.order, ids);
    forall p | p in s.pages && p.pid == pid ensures p in ids { assert ids[p.number] == p; }
    forall i | 0 <= i < |t.order| ensures t.order[i] in t.pages {
      assert t.order[i] in t.order;
    }
    forall i | 0 <= i < |t.pending| ensures t.pending[i] in t.pages {
      assert t.pending[i] in s.pending;
    }
  }

  /** The frames of the process come back and nobody else's do. */
  lemma FinishFrames(c: Config, s: Memory, pid: Pid)
    requires Structure(c, s) && CanFinish(s, pid)
    ensures var t := Finish(c, s, pid); FramesOwned(t.pages, t.bitmap)
  {
    var t := Finish(c, s, pid);
    FinishWellFormed(c, s, pid);
    var ids := PagesOf(pid, s.sizes[pid]);
    forall p | p in t.pages && t.pages[p].present ensures t.bitmap[t.pages[p].frame] {
      forall i | 0 <= i < |ids| ensures !(s.pages[ids[i]].present && s.pages[ids[i]].frame == s.pages[p].frame) {
        assert ids[i] != p;
      }
    }
    forall q | q in s.pages && q.pid == pid && s.pages[q].present ensures !t.bitmap[s.pages[q].frame] {
      assert ids[q.number] == q;
    }
    forall k | 0 <= k < |t.bitmap| && t.bitmap[k]
      ensures exists q :: q in t.pages && t.pages[q].present && t.pages[q].frame == k
    {
      var q :| q in s.pages && s.pages[q].present && s.pages[q].frame == k;
      assert q in t.pages && t.pages[q].present && t.pages[q].frame == k;
    }
  }

  lemma FinishResidents(c: Config, s: Memory, pid: Pid)
    requires Structure(c, s) && CanFinish(s, pid)
    ensures var ids := PagesOf(pid, s.sizes[pid]);
      && Residents(Finish(c, s, pid).pages) == Residents(s.pages) - (set p | p in ids)
      && (forall p :: p in ids ==> p !in s.pending)
  {
    FinishWellFormed(c, s, pid);
    var ids := PagesOf(pid, s.sizes[pid]);
    forall p | p in s.pages ensures p in ids <==> p.pid == pid {
      if p.pid == pid { assert ids[p.number] == p; }
    }
  }

  lemma FinishStructure(c: Config, s: Memory, pid: Pid)
    requires Structure(c, s) && CanFinish(s, pid)
    ensures Structure(c, Finish(c, s, pid))
  {
    var t := Finish(c, s, pid);
    FinishWellFormed(c, s, pid);
    FinishFrames(c, s, pid);
    FinishResidents(c, s, pid);
    ListedRemoveEach(s.order, s.pending, Residents(s.pages), PagesOf(pid, s.sizes[pid]));
    forall i | 0 <= i < |s.pending| ensures s.pending[i] in t.pages && !t.pages[s.pending[i]].present {
      assert s.pending[i] in s.pending;
    }
  }

  // ----- accounting

  function TakenFrames(bitmap: seq<bool>): set<nat> {
    set k: nat | k < |bitmap| && bitmap[k]
  }

  ghost function FramesOf(pages: map<PageId, Entry>, ids: set<PageId>): set<nat>
    requires ids <= pages.Keys
  {
    set p | p in ids :: pages[p].frame
  }

  lemma {:induction false} DistinctFramesCount(pages: map<PageId, Entry>, ids: set<PageId>)
    requires ids <= pages.Keys
    requires forall p, q :: p in ids && q in ids && p != q ==> pages[p].frame != pages[q].frame
    ensures |FramesOf(pages, ids)| == |ids|
  {
    if ids != {} {
      var p :| p in ids;
      DistinctFramesCount(pages, ids - {p});
      assert FramesOf(pages, ids) == FramesOf(pages, ids - {p}) + {pages[p].frame};
    }
  }

  /** As many frames are taken as pages are present. */
  lemma FramesAreCounted(pages: map<PageId, Entry>, bitmap: seq<bool>)
    requires FramesOwned(pages, bitmap)
    ensures |TakenFrames(bitmap)| == |Residents(pages)|
  {
    DistinctFramesCount(pages, Residents(pages));
    var frames := FramesOf(pages, Residents(pages));
    forall k: nat ensures k in TakenFrames(bitmap) <==> k in frames {
      if k in TakenFrames(bitmap) {
        var p :| p in pages && pages[p].present && pages[p].frame == k;
        assert p in Residents(pages);
      }
    }
    assert TakenFrames(bitmap) == frames;
  }
}
