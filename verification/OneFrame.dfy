/** Two runs of a memory with one frame and two swap blocks. Under LRU, a reference between a fault and the arrival of
    its page makes the pending page the victim, and two pages are present in one frame. Under FIFO, a page filled with
    '0' characters goes to its block, which is handed to the next process, and its owner reads zeros. */
module OneFrame {
  import opened Bytes
  import opened Paging
  import opened PagingStructure
  import opened PagingInvariant
  import opened PagingRuns

  const Z: seq<Byte> := [0, 0, 0, 0]
  const B: seq<Byte> := [48, 48, 48, 48]
  const ZeroCharacters: Word := 0x3030_3030
  const P: PageId := PageId(1, 0)
  const Q: PageId := PageId(2, 0)
  const R: PageId := PageId(3, 0)

  function Small(a: Algorithm): Config {
    Config(4, 1, 2, a)
  }

  /** The two processes with their pages, one block each. */
  function Two(p: Entry, q: Entry, frame: seq<Byte>, order: seq<PageId>, pending: seq<PageId>, requests: seq<nat>,
               replies: seq<seq<Byte>>, swap: seq<seq<Byte>>): Memory {
    Memory(map[1 := 1, 2 := 1], map[P := p, Q := q], [p.present || q.present], frame, order, pending, requests,
      replies, swap)
  }

  function Start(): Memory {
    Memory(map[], map[], [false], Z, [], [], [], [], [B, B])
  }

  function OneProcess(): Memory {
    Memory(map[1 := 1], map[P := Out(0)], [false], Z, [], [], [], [], [Z, B])
  }

  function Out(b: nat): Entry { Entry(0, false, false, b) }
  function Clean(b: nat): Entry { Entry(0, true, false, b) }
  function Dirty(b: nat): Entry { Entry(0, true, true, b) }

  function Created2(): Memory { Two(Out(0), Out(1), Z, [], [], [], [], [Z, Z]) }
  function Faulted3(): Memory { Two(Out(0), Out(1), Z, [P], [P], [0], [], [Z, Z]) }
  function Answered4(): Memory { Two(Out(0), Out(1), Z, [P], [P], [], [Z], [Z, Z]) }
  function Arrived5(): Memory { Two(Clean(0), Out(1), Z, [P], [], [], [], [Z, Z]) }

  lemma Fits(a: Algorithm)
    ensures Base(Small(a), 0) == 0 && Base(Small(a), 1) == 4
  {
    assert Base(Small(a), 1) == Base(Small(a), 0) + 4;
  }

  lemma FirstAddress(a: Algorithm)
    ensures PageOf(Small(a), 1, 0) == P && Displacement(Small(a), 0) == 0 && WordInPage(Small(a), 0)
  {
  }

  lemma ZeroBlock()
    ensures Filled(4, 0) == Z && !Blank(Z) && Blank(B)
  {
    assert Z[0] == 0;
  }

  lemma TwoWellFormed(a: Algorithm, p: Entry, q: Entry, frame: seq<Byte>, order: seq<PageId>, pending: seq<PageId>,
                      requests: seq<nat>, replies: seq<seq<Byte>>, swap: seq<seq<Byte>>)
    requires p.frame == 0 && q.frame == 0 && p.swapPosition < 2 && q.swapPosition < 2 && |frame| == 4
    requires forall i :: 0 <= i < |order| ==> order[i] in {P, Q}
    requires forall i :: 0 <= i < |pending| ==> pending[i] in {P, Q}
    requires forall i :: 0 <= i < |requests| ==> requests[i] < 2
    requires forall i :: 0 <= i < |replies| ==> |replies[i]| == 4
    requires |swap| == 2 && |swap[0]| == 4 && |swap[1]| == 4
    ensures WellFormed(Small(a), Two(p, q, frame, order, pending, requests, replies, swap))
  {
    Fits(a);
  }

  // ----- two processes, the first with its page in the frame

  lemma FirstProcessCreated(a: Algorithm)
    ensures WellFormed(Small(a), Start())
    ensures Next(Small(a), Start(), Created(1, 1, true), OneProcess())
  {
    Fits(a);
    ZeroBlock();
    var s := Start();
    assert LowestBlank(s.swap, 0) == Some(0);
    assert Reserve([Z, B], 0) == Reservation([Z, B], []);
    assert [B, B][0 := Z] == [Z, B];
    assert Reserve(s.swap, 1) == Reservation([Z, B], [0]);
    var t := Create(Small(a), s, 1, 1, true);
    assert t.pages == map[P := Out(0)];
  }

  lemma SecondReservation()
    ensures Reserve([Z, B], 1) == Reservation([Z, Z], [1])
  {
    ZeroBlock();
    assert LowestBlank([Z, B], 1) == Some(1);
    assert LowestBlank([Z, B], 0) == Some(1);
    assert Reserve([Z, Z], 0) == Reservation([Z, Z], []);
    assert [Z, B][1 := Z] == [Z, Z];
  }

  lemma SecondCreate(a: Algorithm)
    requires Reserve([Z, B], 1) == Reservation([Z, Z], [1])
    ensures Create(Small(a), OneProcess(), 2, 1, true) == Created2()
  {
    assert NewEntries(2, [1]) == map[Q := Out(1)];
    assert map[P := Out(0)] + NewEntries(2, [1]) == map[P := Out(0), Q := Out(1)];
    assert map[1 := 1][2 := 1] == map[1 := 1, 2 := 1];
  }

  lemma SecondProcessCreated(a: Algorithm)
    ensures WellFormed(Small(a), OneProcess())
    ensures Next(Small(a), OneProcess(), Created(2, 1, true), Created2())
  {
    Fits(a);
    SecondReservation();
    SecondCreate(a);
  }

  lemma FirstFault(a: Algorithm)
    ensures WellFormed(Small(a), Created2()) && Next(Small(a), Created2(), Faulted(P), Faulted3())
  {
    TwoWellFormed(a, Out(0), Out(1), Z, [], [], [], [], [Z, Z]);
    assert RemoveFirst([], P) + [P] == [P];
  }

  lemma FirstAnswer(a: Algorithm)
    ensures WellFormed(Small(a), Faulted3()) && Next(Small(a), Faulted3(), SwapAnswered, Answered4())
  {
    TwoWellFormed(a, Out(0), Out(1), Z, [P], [P], [0], [], [Z, Z]);
  }

  lemma FirstArrival(a: Algorithm)
    ensures WellFormed(Small(a), Answered4())
    ensures Next(Small(a), Answered4(), PageArrived, Arrived5())
  {
    Fits(a);
    TwoWellFormed(a, Out(0), Out(1), Z, [P], [P], [], [Z], [Z, Z]);
    SpliceWhole(Z, Z);
    assert [false][0 := true] == [true];
    var s := Answered4();
    assert LowestClear(s.bitmap, 0) == Some(0);
    assert Arrive(Small(a), s).pages == map[P := Clean(0), Q := Out(1)];
  }

  function TwoFlat(p: seq<Byte>): Flat {
    map[1 := p, 2 := Z]
  }

  lemma FlatCreations(a: Algorithm)
    ensures FlatStep(Small(a), FlatStep(Small(a), map[], Created(1, 1, true)), Created(2, 1, true)) == TwoFlat(Z)
  {
    Fits(a);
    ZeroBlock();
    var none: Flat := map[];
    assert none[1 := Z][2 := Z] == TwoFlat(Z);
  }

  lemma OneCreated(a: Algorithm)
    ensures Reaches(Small(a), OneProcess(), FlatStep(Small(a), map[], Created(1, 1, true)))
  {
    FirstProcessCreated(a);
    SecondProcessCreated(a);
    ReachesInitial(Small(a), Start());
    ReachesNext(Small(a), Start(), map[], Created(1, 1, true), OneProcess());
  }

  lemma BothCreated(a: Algorithm)
    ensures Reaches(Small(a), Created2(), TwoFlat(Z)) && WellFormed(Small(a), Created2())
  {
    var c := Small(a);
    OneCreated(a);
    SecondProcessCreated(a);
    FirstFault(a);
    FlatCreations(a);
    ReachesNext(c, OneProcess(), FlatStep(c, map[], Created(1, 1, true)), Created(2, 1, true), Created2());
  }

  lemma FirstPageAsked(a: Algorithm)
    ensures Reaches(Small(a), Faulted3(), TwoFlat(Z)) && WellFormed(Small(a), Faulted3())
  {
    BothCreated(a);
    FirstFault(a);
    FirstAnswer(a);
    ReachesNext(Small(a), Created2(), TwoFlat(Z), Faulted(P), Faulted3());
  }

  lemma FirstPageAnswered(a: Algorithm)
    ensures Reaches(Small(a), Answered4(), TwoFlat(Z)) && WellFormed(Small(a), Answered4())
  {
    FirstPageAsked(a);
    FirstAnswer(a);
    FirstArrival(a);
    ReachesNext(Small(a), Faulted3(), TwoFlat(Z), SwapAnswered, Answered4());
  }

  lemma FirstPageResident(a: Algorithm)
    ensures Reaches(Small(a), Arrived5(), TwoFlat(Z)) && WellFormed(Small(a), Arrived5())
  {
    FirstPageAnswered(a);
    FirstArrival(a);
    TwoWellFormed(a, Clean(0), Out(1), Z, [P], [], [], [], [Z, Z]);
    ReachesNext(Small(a), Answered4(), TwoFlat(Z), PageArrived, Arrived5());
  }

  // ----- LRU: the page still to come is the victim

  function Faulted6(): Memory { Two(Clean(0), Out(1), Z, [P, Q], [Q], [1], [], [Z, Z]) }
  function Loaded7(): Memory { Two(Clean(0), Out(1), Z, [Q, P], [Q], [1], [], [Z, Z]) }
  function Answered8(): Memory { Two(Clean(0), Out(1), Z, [Q, P], [Q], [], [Z], [Z, Z]) }
  function Shared9(): Memory { Two(Clean(0), Clean(1), Z, [P], [], [], [], [Z, Z]) }

  lemma SecondFault()
    ensures WellFormed(Small(Lru), Faulted6()) && Next(Small(Lru), Arrived5(), Faulted(Q), Faulted6())
  {
    TwoWellFormed(Lru, Clean(0), Out(1), Z, [P], [], [], [], [Z, Z]);
    TwoWellFormed(Lru, Clean(0), Out(1), Z, [P, Q], [Q], [1], [], [Z, Z]);
    assert RemoveFirst([P][1..], Q) == [];
    assert RemoveFirst([P], Q) == [P];
    assert [P] + [Q] == [P, Q];
  }

  lemma TouchedGoesLast()
    ensures RemoveFirst([P, Q], P) + [P] == [Q, P]
  {
    assert RemoveFirst([P, Q], P) == [Q];
  }

  lemma TouchOfFirstPage()
    ensures TouchPage(Small(Lru), Faulted6(), P) == Loaded7()
  {
    TouchedGoesLast();
  }

  lemma ReferenceInBetween()
    ensures WellFormed(Small(Lru), Faulted6()) && Next(Small(Lru), Faulted6(), Loaded(1, 0), Loaded7())
  {
    TwoWellFormed(Lru, Clean(0), Out(1), Z, [P, Q], [Q], [1], [], [Z, Z]);
    FirstAddress(Lru);
    TouchOfFirstPage();
  }

  lemma SecondAnswer()
    ensures WellFormed(Small(Lru), Loaded7()) && Next(Small(Lru), Loaded7(), SwapAnswered, Answered8())
  {
    TwoWellFormed(Lru, Clean(0), Out(1), Z, [Q, P], [Q], [1], [], [Z, Z]);
  }

  lemma PendingPageIsVictim()
    ensures WellFormed(Small(Lru), Answered8()) && Next(Small(Lru), Answered8(), PageArrived, Shared9())
  {
    Fits(Lru);
    TwoWellFormed(Lru, Clean(0), Out(1), Z, [Q, P], [Q], [], [Z], [Z, Z]);
    SpliceWhole(Z, Z);
    assert LowestClear(Answered8().bitmap, 1).None?;
    assert LowestClear(Answered8().bitmap, 0).None?;
    assert Arrive(Small(Lru), Answered8()).pages == map[P := Clean(0), Q := Clean(1)];
  }

  lemma PendingPageIsFirst()
    ensures Reaches(Small(Lru), Answered8(), TwoFlat(Z)) && WellFormed(Small(Lru), Answered8())
  {
    var c := Small(Lru);
    FirstPageResident(Lru);
    SecondFault();
    ReferenceInBetween();
    SecondAnswer();
    PendingPageIsVictim();
    ReachesNext(c, Arrived5(), TwoFlat(Z), Faulted(Q), Faulted6());
    ReachesNext(c, Faulted6(), TwoFlat(Z), Loaded(1, 0), Loaded7());
    ReachesNext(c, Loaded7(), TwoFlat(Z), SwapAnswered, Answered8());
  }

  /** When a replacement takes out a page that is not resident, an LRU run reaches a state where two present pages
      share a frame. */
  lemma LruCanShareAFrame()
    ensures Reaches(Small(Lru), Shared9(), TwoFlat(Z))
    ensures P != Q && Resident(Shared9(), P) && Resident(Shared9(), Q) &&
      Shared9().pages[P].frame == Shared9().pages[Q].frame
  {
    PendingPageIsFirst();
    PendingPageIsVictim();
    TwoWellFormed(Lru, Clean(0), Clean(1), Z, [P], [], [], [], [Z, Z]);
    ReachesNext(Small(Lru), Answered8(), TwoFlat(Z), PageArrived, Shared9());
  }

  // ----- FIFO: a page of '0' characters is swapped out

  function Stored6(): Memory { Two(Dirty(0), Out(1), B, [P], [], [], [], [Z, Z]) }
  function Wanted7(): Memory { Two(Dirty(0), Out(1), B, [P, Q], [Q], [1], [], [Z, Z]) }
  function Replied8(): Memory { Two(Dirty(0), Out(1), B, [P, Q], [Q], [], [Z], [Z, Z]) }
  function Evicted9(): Memory { Two(Out(0), Clean(1), Z, [Q], [], [], [], [B, Z]) }

  function Three10(): Memory {
    Memory(map[1 := 1, 2 := 1, 3 := 1], map[P := Out(0), Q := Clean(1), R := Out(0)], [true], Z, [Q], [], [], [],
      [Z, Z])
  }

  lemma FourZeroCharacters()
    ensures WordBytes(ZeroCharacters) == B
  {
  }

  lemma FlatZeroCharacters()
    ensures FlatStep(Small(Fifo), TwoFlat(Z), Stored(1, 0, ZeroCharacters)) == TwoFlat(B)
  {
    FourZeroCharacters();
    SpliceWhole(Z, B);
    assert TwoFlat(Z)[1 := B] == TwoFlat(B);
  }

  lemma StoreOfZeroCharacters()
    requires WellFormed(Small(Fifo), Arrived5())
    ensures Addressable(Small(Fifo), Arrived5(), P, 0, 4)
    ensures StoreBytes(Small(Fifo), Arrived5(), P, 0, B) == Stored6()
  {
    Fits(Fifo);
    SpliceWhole(Z, B);
    assert map[P := Clean(0), Q := Out(1)][P := Dirty(0)] == map[P := Dirty(0), Q := Out(1)];
  }

  lemma ZeroCharactersStored()
    ensures WellFormed(Small(Fifo), Arrived5()) && WellFormed(Small(Fifo), Stored6())
    ensures Next(Small(Fifo), Arrived5(), Stored(1, 0, ZeroCharacters), Stored6())
  {
    TwoWellFormed(Fifo, Clean(0), Out(1), Z, [P], [], [], [], [Z, Z]);
    TwoWellFormed(Fifo, Dirty(0), Out(1), B, [P], [], [], [], [Z, Z]);
    FirstAddress(Fifo);
    FourZeroCharacters();
    StoreOfZeroCharacters();
    MovOutOfResident(Small(Fifo), Arrived5(), 1, 0, ZeroCharacters);
  }

  lemma OtherPageWanted()
    ensures WellFormed(Small(Fifo), Wanted7()) && Next(Small(Fifo), Stored6(), Faulted(Q), Wanted7())
  {
    TwoWellFormed(Fifo, Dirty(0), Out(1), B, [P], [], [], [], [Z, Z]);
    TwoWellFormed(Fifo, Dirty(0), Out(1), B, [P, Q], [Q], [1], [], [Z, Z]);
    assert [P] + [Q] == [P, Q];
  }

  lemma OtherPageReplied()
    ensures WellFormed(Small(Fifo), Replied8()) && Next(Small(Fifo), Wanted7(), SwapAnswered, Replied8())
  {
    TwoWellFormed(Fifo, Dirty(0), Out(1), B, [P, Q], [Q], [1], [], [Z, Z]);
    TwoWellFormed(Fifo, Dirty(0), Out(1), B, [P, Q], [Q], [], [Z], [Z, Z]);
  }

  lemma ZeroCharactersEvicted()
    ensures WellFormed(Small(Fifo), Evicted9()) && Next(Small(Fifo), Replied8(), PageArrived, Evicted9())
  {
    Fits(Fifo);
    TwoWellFormed(Fifo, Dirty(0), Out(1), B, [P, Q], [Q], [], [Z], [Z, Z]);
    TwoWellFormed(Fifo, Out(0), Clean(1), Z, [Q], [], [], [], [B, Z]);
    SpliceWhole(B, Z);
    assert LowestClear(Replied8().bitmap, 1).None?;
    assert LowestClear(Replied8().bitmap, 0).None?;
    assert FrameAt(Small(Fifo), B, 0) == B;
    assert [Z, Z][0 := B] == [B, Z];
    assert Arrive(Small(Fifo), Replied8()).pages == map[P := Out(0), Q := Clean(1)];
  }

  lemma ThirdReservation()
    ensures Reserve([B, Z], 1) == Reservation([Z, Z], [0])
  {
    ZeroBlock();
    assert LowestBlank([B, Z], 0) == Some(0);
    assert Reserve([Z, Z], 0) == Reservation([Z, Z], []);
    assert [B, Z][0 := Z] == [Z, Z];
  }

  lemma ThirdCreate()
    requires Reserve([B, Z], 1) == Reservation([Z, Z], [0])
    ensures Create(Small(Fifo), Evicted9(), 3, 1, true) == Three10()
  {
    assert NewEntries(3, [0]) == map[R := Out(0)];
    assert map[P := Out(0), Q := Clean(1)] + NewEntries(3, [0]) == map[P := Out(0), Q := Clean(1), R := Out(0)];
    assert map[1 := 1, 2 := 1][3 := 1] == map[1 := 1, 2 := 1, 3 := 1];
  }

  lemma ThirdProcessCreated()
    ensures WellFormed(Small(Fifo), Three10())
    ensures WellFormed(Small(Fifo), Evicted9()) && Next(Small(Fifo), Evicted9(), Created(3, 1, true), Three10())
  {
    Fits(Fifo);
    TwoWellFormed(Fifo, Out(0), Clean(1), Z, [Q], [], [], [], [B, Z]);
    ThirdReservation();
    ThirdCreate();
  }

  lemma BlankBlockReached()
    ensures Reaches(Small(Fifo), Evicted9(), TwoFlat(B)) && WellFormed(Small(Fifo), Evicted9())
  {
    var c := Small(Fifo);
    FirstPageResident(Fifo);
    ZeroCharactersStored();
    FlatZeroCharacters();
    OtherPageWanted();
    OtherPageReplied();
    ZeroCharactersEvicted();
    ReachesNext(c, Arrived5(), TwoFlat(Z), Stored(1, 0, ZeroCharacters), Stored6());
    ReachesNext(c, Stored6(), TwoFlat(B), Faulted(Q), Wanted7());
    ReachesNext(c, Wanted7(), TwoFlat(B), SwapAnswered, Replied8());
    ReachesNext(c, Replied8(), TwoFlat(B), PageArrived, Evicted9());
  }

  /** A process fills its page with '0' characters, the page is replaced, and another process is created: both own one
      block, and where the flat memory of the first holds its '0' characters, paging shows zeros. */
  lemma BlankPageIsLost() returns (flat: Flat)
    ensures Reaches(Small(Fifo), Three10(), flat) && WellFormed(Small(Fifo), Three10())
    ensures Three10().pages[P].swapPosition == Three10().pages[R].swapPosition
    ensures 1 in flat && flat[1] == B && View(Small(Fifo), Three10(), P) == Z && !Refines(Small(Fifo), Three10(), flat)
  {
    var c := Small(Fifo);
    BlankBlockReached();
    ThirdProcessCreated();
    flat := FlatStep(c, TwoFlat(B), Created(3, 1, true));
    ReachesNext(c, Evicted9(), TwoFlat(B), Created(3, 1, true), Three10());
    Fits(Fifo);
    assert B[..4] == B && B[0] != Z[0];
    assert Slice(c, flat[1], 0) == B;
    assert P in Views(c, Three10());
  }
}
