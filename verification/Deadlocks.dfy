/** Deadlocks among processes that wait for resources, and the analysis the kernel makes when a process blocks. */
module Deadlocks {
  import opened Paging
  import opened Resources

  /** The process waits for a resource of which no instance is free and no process outside d holds one. */
  predicate Stuck(s: Table, d: set<Pid>, p: Pid, r: string) {
    && r in s.blocks && p in s.blocks[r].blocked
    && s.blocks[r].instances == 0
    && s.blocks[r].pids.Keys <= d
  }

  ghost predicate Deadlocked(s: Table, d: set<Pid>) {
    d != {} && forall p :: p in d ==> exists r :: Stuck(s, d, p, r)
  }

  // ----- the analysis

  /** The processes the analysis looks at: the holders of the resource and those blocked on it. */
  function Involved(b: Block): set<Pid> {
    b.pids.Keys + set p | p in b.blocked
  }

  /** analize_resource_deadlock: it reports when every process it looks at is in some blocked list. */
  predicate Reports(s: Table, r: string)
    requires r in s.blocks
  {
    forall p :: p in Involved(s.blocks[r]) ==> IsBlocked(s, p)
  }

  /** The step blocks a process, and the analysis that follows reports. */
  ghost predicate BlocksAndReports(s: Table, e: Event, t: Table, d: set<Pid>) {
    && e.Waited? && e.pid in d
    && e.r in s.blocks && s.blocks[e.r].instances <= 0
    && e.r in t.blocks && Reports(t, e.r)
    && t.blocks[e.r].pids.Keys <= d
  }

  /** What analize_resource_deadlock decides is whether all the holders of the resource are blocked. */
  lemma ReportsIff(s: Table, r: string)
    requires r in s.blocks
    ensures Reports(s, r) <==> forall p :: p in s.blocks[r].pids ==> IsBlocked(s, p)
  {
    forall p | p in s.blocks[r].blocked ensures IsBlocked(s, p) {
    }
  }

  // ----- stability

  lemma StuckStays(totals: map<string, nat>, s: Table, e: Event, t: Table, d: set<Pid>, p: Pid, r: string)
    requires Inv(totals, s) && Next(s, e, t) && Deadlocked(s, d) && Stuck(s, d, p, r) && p in d
    requires e.Removed? ==> e.pid !in d
    ensures Stuck(t, d, p, r)
  {
    match e
    case Started(pid) =>
    case Waited(pid, u) =>
    case Signaled(pid, u) => NotAMember(s, d, pid);
    case Unblocking =>
    case Removed(pid) => RemoveFirstDistinct(s.blocks[r].blocked, pid);
  }

  /** A process that is not blocked is in no deadlock. */
  lemma NotAMember(s: Table, d: set<Pid>, pid: Pid)
    requires Deadlocked(s, d) && !IsBlocked(s, pid)
    ensures pid !in d
  {
    assert forall r :: !Stuck(s, d, pid, r);
  }

  /** A deadlock survives every step that does not remove one of its members. */
  lemma DeadlockStays(totals: map<string, nat>, s: Table, e: Event, t: Table, d: set<Pid>)
    requires Inv(totals, s) && Next(s, e, t) && Deadlocked(s, d)
    requires e.Removed? ==> e.pid !in d
    ensures Deadlocked(t, d)
  {
    forall p | p in d ensures exists r :: Stuck(t, d, p, r) {
      var r :| Stuck(s, d, p, r);
      StuckStays(totals, s, e, t, d, p, r);
    }
  }

  /** Stability, over every run: while no member is removed, none of them is ever released. */
  lemma {:induction false} DeadlockIsForever(totals: map<string, nat>, events: seq<Event>, states: seq<Table>, i: nat,
                                             j: nat, d: set<Pid>)
    requires IsRun(totals, events, states) && i <= j <= |events| && Deadlocked(states[i], d)
    requires forall k :: i <= k < j && events[k].Removed? ==> events[k].pid !in d
    ensures Deadlocked(states[j], d)
  {
    if i < j {
      DeadlockIsForever(totals, events, states, i, j - 1, d);
      ResourcesAreConserved(totals, events, states, j - 1);
      DeadlockStays(totals, states[j - 1], events[j - 1], states[j], d);
    }
  }

  /** And removing a member ends the deadlock of its set, so a removal of a member is exactly what ends it. */
  lemma DeadlockStaysIff(totals: map<string, nat>, s: Table, e: Event, t: Table, d: set<Pid>)
    requires Inv(totals, s) && Next(s, e, t) && Deadlocked(s, d)
    ensures Deadlocked(t, d) <==> !(e.Removed? && e.pid in d)
  {
    if e.Removed? && e.pid in d {
      RemoveKeeps(totals, s, e.pid);
      assert forall r :: !Stuck(t, d, e.pid, r);
    } else {
      DeadlockStays(totals, s, e, t, d);
    }
  }

  // ----- completeness of the analysis

  lemma MembersAreBlocked(s: Table, d: set<Pid>, p: Pid)
    requires Deadlocked(s, d) && p in d
    ensures IsBlocked(s, p)
  {
    var r :| Stuck(s, d, p, r);
  }

  /** The last member is not about to block in this step. */
  predicate NoMemberBlocks(s: Table, e: Event, d: set<Pid>) {
    !(e.Waited? && e.r in s.blocks && s.blocks[e.r].instances <= 0 && e.pid in d)
  }

  lemma WaitedBefore(totals: map<string, nat>, s: Table, e: Event, t: Table, d: set<Pid>, p: Pid, r: string)
    requires Inv(totals, s) && Next(s, e, t) && e.Waited? && Deadlocked(t, d) && Stuck(t, d, p, r) && p in d
    requires NoMemberBlocks(s, e, d)
    ensures Stuck(s, d, p, r)
  {
    if e.r in s.blocks && e.r == r && s.blocks[r].instances > 0 {
      assert e.pid in t.blocks[r].pids;
      MembersAreBlocked(t, d, e.pid);
    }
  }

  /** A process that is served in this turn is no longer blocked, so it is no member. */
  lemma ServedIsNotBlocked(totals: map<string, nat>, s: Table, r: string)
    requires Inv(totals, s) && s.posts > 0 && r in s.blocks && Served(s.blocks[r]) != s.blocks[r]
    ensures s.blocks[r].blocked != [] && s.blocks[r].blocked[0] in Unblock(s).blocks[r].pids
    ensures !IsBlocked(Unblock(s), s.blocks[r].blocked[0])
  {
    var t, h := Unblock(s), s.blocks[r].blocked[0];
    forall v | v in t.blocks ensures h !in t.blocks[v].blocked {
      assert h in s.blocks[r].blocked;
      assert h !in s.blocks[r].blocked[1..];
    }
  }

  lemma UnblockedBefore(totals: map<string, nat>, s: Table, t: Table, d: set<Pid>, p: Pid, r: string)
    requires Inv(totals, s) && s.posts > 0 && t == Unblock(s) && Deadlocked(t, d) && Stuck(t, d, p, r)
    ensures Stuck(s, d, p, r)
  {
    if Served(s.blocks[r]) != s.blocks[r] {
      ServedIsNotBlocked(totals, s, r);
      MembersAreBlocked(t, d, s.blocks[r].blocked[0]);
    }
  }

  lemma RemovedBefore(totals: map<string, nat>, s: Table, t: Table, d: set<Pid>, pid: Pid, p: Pid, r: string)
    requires Inv(totals, s) && t == Remove(s, pid) && Stuck(t, d, p, r)
    ensures Stuck(s, d, p, r)
  {
    RemoveFirstDistinct(s.blocks[r].blocked, pid);
    ClearedConserves(totals[r], s.blocks[r], pid);
    assert Conserved(totals[r], s.blocks[r]);
  }

  /** Before any other step, every member was already stuck. */
  lemma StuckBefore(totals: map<string, nat>, s: Table, e: Event, t: Table, d: set<Pid>, p: Pid, r: string)
    requires Inv(totals, s) && Next(s, e, t) && Deadlocked(t, d) && Stuck(t, d, p, r) && p in d
    requires NoMemberBlocks(s, e, d)
    ensures Stuck(s, d, p, r)
  {
    match e
    case Started(pid) =>
    case Waited(pid, u) => WaitedBefore(totals, s, e, t, d, p, r);
    case Signaled(pid, u) => assert Conserved(totals[r], s.blocks[r]);
    case Unblocking => UnblockedBefore(totals, s, t, d, p, r);
    case Removed(pid) => RemovedBefore(totals, s, t, d, pid, p, r);
  }

  /** Completeness, step by step: a set that becomes deadlocked does so because one of its members blocks, and the
      analysis made at that moment reports. */
  lemma NewDeadlockIsReported(totals: map<string, nat>, s: Table, e: Event, t: Table, d: set<Pid>)
    requires Inv(totals, s) && Next(s, e, t) && Deadlocked(t, d) && !Deadlocked(s, d)
    ensures BlocksAndReports(s, e, t, d)
  {
    if NoMemberBlocks(s, e, d) {
      forall p | p in d ensures exists r :: Stuck(s, d, p, r) {
        var r :| Stuck(t, d, p, r);
        StuckBefore(totals, s, e, t, d, p, r);
      }
      assert false;
    } else {
      LastToBlock(totals, s, e, t, d);
    }
  }

  lemma LastToBlock(totals: map<string, nat>, s: Table, e: Event, t: Table, d: set<Pid>)
    requires Inv(totals, s) && Next(s, e, t) && Deadlocked(t, d)
    requires e.Waited? && e.r in s.blocks && s.blocks[e.r].instances <= 0 && e.pid in d
    ensures BlocksAndReports(s, e, t, d)
  {
    var r :| Stuck(t, d, e.pid, r);
    NextKeeps(totals, s, e, t);
    assert e.pid in t.blocks[e.r].blocked;
    assert r == e.r;
    ReportsIff(t, r);
    forall p | p in t.blocks[r].pids ensures IsBlocked(t, p) {
      MembersAreBlocked(t, d, p);
    }
  }

  lemma NoneAtFirst(totals: map<string, nat>, s: Table, d: set<Pid>)
    requires Initial(totals, s)
    ensures !Deadlocked(s, d)
  {
    assert forall p, r :: !Stuck(s, d, p, r);
  }

  /** Completeness, over every run: a deadlock that is there was reported when the last of its members blocked. */
  lemma {:induction false} NoDeadlockIsMissed(totals: map<string, nat>, events: seq<Event>, states: seq<Table>,
                                              j: nat, d: set<Pid>)
    returns (i: nat)
    requires IsRun(totals, events, states) && j <= |events| && Deadlocked(states[j], d)
    ensures i < j && BlocksAndReports(states[i], events[i], states[i + 1], d) && Deadlocked(states[i + 1], d)
  {
    NoneAtFirst(totals, states[0], d);
    if Deadlocked(states[j - 1], d) {
      i := NoDeadlockIsMissed(totals, events, states, j - 1, d);
    } else {
      i := j - 1;
      ResourcesAreConserved(totals, events, states, i);
      NewDeadlockIsReported(totals, states[i], events[i], states[j], d);
    }
  }

  // ----- how far a report can be trusted

  function AllBlocked(s: Table): set<Pid> {
    set r, p | r in s.blocks && p in s.blocks[r].blocked :: p
  }

  lemma AllBlockedAre(s: Table, p: Pid)
    ensures p in AllBlocked(s) <==> IsBlocked(s, p)
  {
  }

  ghost predicate InDeadlock(s: Table, p: Pid) {
    exists d :: p in d && Deadlocked(s, d)
  }

  predicate StuckSomewhere(s: Table, d: set<Pid>, p: Pid) {
    exists r :: r in s.blocks && Stuck(s, d, p, r)
  }

  /** Drops the processes of d that are not stuck among d, again and again until all that are left are. */
  function Core(s: Table, d: set<Pid>): (core: set<Pid>)
    ensures core <= d && forall p :: p in core ==> StuckSomewhere(s, core, p)
    decreases |d|
  {
    var stuck := set p | p in d && StuckSomewhere(s, d, p);
    if stuck == d then d
    else
      assert |stuck| < |d| by { FewerOf(stuck, d); }
      Core(s, stuck)
  }

  lemma FewerOf(a: set<Pid>, b: set<Pid>)
    requires a <= b && a != b
    ensures |a| < |b|
  {
    assert |b - a| > 0;
    assert |b| == |a| + |b - a|;
  }

  /** No deadlock loses a member when others are dropped. */
  lemma {:induction false} CoreHasDeadlocks(s: Table, d: set<Pid>, deadlock: set<Pid>)
    requires Deadlocked(s, deadlock) && deadlock <= d
    ensures deadlock <= Core(s, d)
    decreases |d|
  {
    var stuck := set p | p in d && StuckSomewhere(s, d, p);
    forall p | p in deadlock ensures p in stuck {
      var r :| Stuck(s, deadlock, p, r);
      assert Stuck(s, d, p, r);
    }
    if stuck != d {
      FewerOf(stuck, d);
      CoreHasDeadlocks(s, stuck, deadlock);
    }
  }

  /** A process is in a deadlock exactly if it survives the dropping that starts from all the blocked processes. */
  lemma InDeadlockIff(s: Table, p: Pid)
    ensures InDeadlock(s, p) <==> p in Core(s, AllBlocked(s))
  {
    var core := Core(s, AllBlocked(s));
    if p in core {
      forall q | q in core ensures exists r :: Stuck(s, core, q, r) {
        assert StuckSomewhere(s, core, q);
      }
      assert Deadlocked(s, core);
    }
    if InDeadlock(s, p) {
      var d :| p in d && Deadlocked(s, d);
      forall q | q in d ensures q in AllBlocked(s) {
        MembersAreBlocked(s, d, q);
        AllBlockedAre(s, q);
      }
      CoreHasDeadlocks(s, AllBlocked(s), d);
    }
  }

  /** The process waits for a resource with no free instance. */
  ghost predicate Halted(s: Table, p: Pid) {
    exists r :: r in s.blocks && p in s.blocks[r].blocked && s.blocks[r].instances == 0
  }

  /** n steps from a process to a holder of the resource it waits for lead to one that can still go on. */
  ghost predicate LeadsOut(s: Table, p: Pid, n: nat)
    decreases n
  {
    if n == 0 then !Halted(s, p)
    else exists r, h :: r in s.blocks && p in s.blocks[r].blocked && h in s.blocks[r].pids && LeadsOut(s, h, n - 1)
  }

  /** Whatever a member waits for is exhausted and held by members. */
  ghost predicate WaitsInside(s: Table, d: set<Pid>) {
    forall p, r :: p in d && r in s.blocks && p in s.blocks[r].blocked ==> Stuck(s, d, p, r)
  }

  lemma {:induction false} MembersLeadNowhere(s: Table, d: set<Pid>, p: Pid, n: nat)
    requires WaitsInside(s, d) && Deadlocked(s, d) && p in d
    ensures !LeadsOut(s, p, n)
    decreases n
  {
    if n > 0 {
      forall r, h | r in s.blocks && p in s.blocks[r].blocked && h in s.blocks[r].pids ensures !LeadsOut(s, h, n - 1) {
        assert Stuck(s, d, p, r);
        MembersLeadNowhere(s, d, h, n - 1);
      }
    } else {
      var r :| Stuck(s, d, p, r);
    }
  }

  /** The one resource that a member waits for is exhausted and held by members. */
  lemma MemberWaitsFor(totals: map<string, nat>, s: Table, d: set<Pid>, p: Pid, r: string)
    requires Inv(totals, s) && Deadlocked(s, d) && p in d && r in s.blocks && p in s.blocks[r].blocked
    ensures Stuck(s, d, p, r)
  {
    var u :| Stuck(s, d, p, u);
    assert u == r;
  }

  ghost predicate NoWayOut(s: Table, p: Pid) {
    forall n: nat :: !LeadsOut(s, p, n)
  }

  lemma HolderHasNoWayOut(s: Table, p: Pid, r: string, h: Pid)
    requires NoWayOut(s, p) && r in s.blocks && p in s.blocks[r].blocked && h in s.blocks[r].pids
    ensures NoWayOut(s, h)
  {
    forall n: nat ensures !LeadsOut(s, h, n) {
      assert !LeadsOut(s, p, n + 1);
    }
  }

  lemma NoWayOutIsHalted(s: Table, p: Pid)
    requires NoWayOut(s, p)
    ensures Halted(s, p) && p in AllBlocked(s)
  {
    assert !LeadsOut(s, p, 0);
  }

  /** Told by chains of waits: a process is in a deadlock exactly if no chain from it, by way of holders of what is
      waited for, ends at a process that can go on. */
  lemma InDeadlockIffNoWayOut(totals: map<string, nat>, s: Table, p: Pid)
    requires Inv(totals, s)
    ensures InDeadlock(s, p) <==> NoWayOut(s, p)
  {
    if InDeadlock(s, p) {
      var d :| p in d && Deadlocked(s, d);
      forall q, r | q in d && r in s.blocks && q in s.blocks[r].blocked ensures Stuck(s, d, q, r) {
        MemberWaitsFor(totals, s, d, q, r);
      }
      forall n: nat ensures !LeadsOut(s, p, n) {
        MembersLeadNowhere(s, d, p, n);
      }
    }
    if NoWayOut(s, p) {
      var d := set q | q in AllBlocked(s) && NoWayOut(s, q);
      NoWayOutIsHalted(s, p);
      forall q | q in d ensures exists r :: Stuck(s, d, q, r) {
        NoWayOutIsHalted(s, q);
        var r :| r in s.blocks && q in s.blocks[r].blocked && s.blocks[r].instances == 0;
        forall h | h in s.blocks[r].pids ensures h in d {
          HolderHasNoWayOut(s, q, r, h);
          NoWayOutIsHalted(s, h);
        }
        assert Stuck(s, d, q, r);
      }
      assert p in d && Deadlocked(s, d);
    }
  }

  /** When a WAIT blocks a process, over every run: if the process is now in a deadlock the analysis reports, and a
      report is right about it exactly if it survives the dropping; otherwise a chain of waits leads from it to a
      process that can go on. */
  lemma ReportIsRightIff(totals: map<string, nat>, events: seq<Event>, states: seq<Table>, i: nat)
    requires IsRun(totals, events, states) && i < |events|
    requires events[i].Waited? && events[i].r in states[i].blocks && states[i].blocks[events[i].r].instances <= 0
    ensures var pid, r, t := events[i].pid, events[i].r, states[i + 1];
      && r in t.blocks && pid in t.blocks[r].blocked
      && (InDeadlock(t, pid) ==> Reports(t, r))
      && (InDeadlock(t, pid) <==> pid in Core(t, AllBlocked(t)))
      && (InDeadlock(t, pid) <==> NoWayOut(t, pid))
  {
    var pid, r, t := events[i].pid, events[i].r, states[i + 1];
    assert Next(states[i], events[i], t);
    assert pid in t.blocks[r].blocked;
    ResourcesAreConserved(totals, events, states, i + 1);
    InDeadlockIff(t, pid);
    InDeadlockIffNoWayOut(totals, t, pid);
    if InDeadlock(t, pid) {
      HoldersOfDeadlockBlocked(totals, t, pid, r);
    }
  }

  lemma HoldersOfDeadlockBlocked(totals: map<string, nat>, s: Table, p: Pid, r: string)
    requires Inv(totals, s) && InDeadlock(s, p) && r in s.blocks && p in s.blocks[r].blocked
    ensures Reports(s, r)
  {
    var d :| p in d && Deadlocked(s, d);
    MemberWaitsFor(totals, s, d, p, r);
    forall h | h in s.blocks[r].pids ensures IsBlocked(s, h) {
      MembersAreBlocked(s, d, h);
    }
    ReportsIff(s, r);
  }

  /** Everybody who waits for r is stuck among the blocked processes. */
  ghost predicate QueueIsStuck(s: Table, r: string)
    requires r in s.blocks
  {
    s.blocks[r].blocked != [] ==> Reports(s, r) && s.blocks[r].instances == 0
  }

  /** All the blocked processes together are deadlocked exactly if the analysis would report on every resource that
      somebody waits for, and none of these has a free instance. */
  lemma AllBlockedDeadlockedIff(totals: map<string, nat>, s: Table)
    requires Inv(totals, s) && AllBlocked(s) != {}
    ensures Deadlocked(s, AllBlocked(s)) <==> forall r :: r in s.blocks ==> QueueIsStuck(s, r)
  {
    var d := AllBlocked(s);
    if Deadlocked(s, d) {
      forall r | r in s.blocks ensures QueueIsStuck(s, r) {
        if s.blocks[r].blocked != [] {
          var p := s.blocks[r].blocked[0];
          assert p in s.blocks[r].blocked;
          AllBlockedAre(s, p);
          var u :| Stuck(s, d, p, u);
          assert u == r;
          forall h | h in s.blocks[r].pids ensures IsBlocked(s, h) {
            AllBlockedAre(s, h);
          }
          ReportsIff(s, r);
        }
      }
    }
    if forall r :: r in s.blocks ==> QueueIsStuck(s, r) {
      forall p | p in d ensures exists r :: Stuck(s, d, p, r) {
        var r :| r in s.blocks && p in s.blocks[r].blocked;
        assert QueueIsStuck(s, r);
        forall h | h in s.blocks[r].pids ensures h in d {
          ReportsIff(s, r);
          AllBlockedAre(s, h);
        }
        assert Stuck(s, d, p, r);
      }
    }
  }

  function Pair(a: Block, b: Block, live: set<Pid>): Table {
    Table(map["a" := a, "b" := b], 0, live)
  }

  lemma NotBlockedInPair(a: Block, b: Block, live: set<Pid>, pid: Pid)
    requires pid !in a.blocked && pid !in b.blocked
    ensures !IsBlocked(Pair(a, b, live), pid)
  {
  }

  lemma PairWaitsA(a: Block, b: Block, c: Block, pid: Pid)
    requires pid in {1, 2, 3} && pid !in a.blocked && pid !in b.blocked && c == WaitOn(a, pid)
    ensures Next(Pair(a, b, {1, 2, 3}), Waited(pid, "a"), Pair(c, b, {1, 2, 3}))
  {
    NotBlockedInPair(a, b, {1, 2, 3}, pid);
    assert Wait(Pair(a, b, {1, 2, 3}), pid, "a").blocks == map["a" := c, "b" := b];
  }

  lemma PairWaitsB(a: Block, b: Block, c: Block, pid: Pid)
    requires pid in {1, 2, 3} && pid !in a.blocked && pid !in b.blocked && c == WaitOn(b, pid)
    ensures Next(Pair(a, b, {1, 2, 3}), Waited(pid, "b"), Pair(a, c, {1, 2, 3}))
  {
    NotBlockedInPair(a, b, {1, 2, 3}, pid);
    assert Wait(Pair(a, b, {1, 2, 3}), pid, "b").blocks == map["a" := a, "b" := c];
  }

  lemma PairStarts(a: Block, b: Block, live: set<Pid>, pid: Pid)
    requires pid !in live
    ensures Next(Pair(a, b, live), Started(pid), Pair(a, b, live + {pid}))
  {
  }

  lemma PairIsNoDeadlock(a: Block, b: Block, d: set<Pid>)
    requires a.pids == map[1 := 1] && b.pids == map[2 := 1] && 1 !in a.blocked && 2 !in a.blocked && 2 !in b.blocked
    ensures !Deadlocked(Pair(a, b, {1, 2, 3}), d)
  {
    var t := Pair(a, b, {1, 2, 3});
    assert 1 in a.pids && 2 in b.pids;
    assert forall v :: !Stuck(t, d, 2, v);
    assert 2 !in d ==> forall p :: !Stuck(t, d, p, "b");
    assert 2 !in d ==> forall v :: !Stuck(t, d, 1, v);
    assert 1 !in d ==> forall p :: !Stuck(t, d, p, "a");
    assert forall p, v :: Stuck(t, d, p, v) ==> v == "a" || v == "b";
  }

  lemma PairInitial()
    ensures Initial(map["a" := 1, "b" := 1], Pair(Block(1, map[], []), Block(1, map[], []), {}))
  {
    var totals := map["a" := 1, "b" := 1];
    var free := Block(1, map[], []);
    assert (map r | r in totals :: Block(totals[r], map[], [])) == map["a" := free, "b" := free];
  }

  lemma ThreeStart(a: Block, b: Block) returns (events: seq<Event>, states: seq<Table>)
    requires a == Block(1, map[], []) && b == Block(1, map[], [])
    ensures IsRun(map["a" := 1, "b" := 1], events, states) && states[|events|] == Pair(a, b, {1, 2, 3})
  {
    var totals := map["a" := 1, "b" := 1];
    PairInitial();
    events, states := [], [Pair(a, b, {})];
    PairStarts(a, b, {}, 1);
    assert {} + {1} == {1};
    RunGoesOn(totals, events, states, Pair(a, b, {}), Started(1), Pair(a, b, {1}));
    events, states := events + [Started(1)], states + [Pair(a, b, {1})];
    PairStarts(a, b, {1}, 2);
    assert {1} + {2} == {1, 2};
    RunGoesOn(totals, events, states, Pair(a, b, {1}), Started(2), Pair(a, b, {1, 2}));
    events, states := events + [Started(2)], states + [Pair(a, b, {1, 2})];
    PairStarts(a, b, {1, 2}, 3);
    assert {1, 2} + {3} == {1, 2, 3};
    RunGoesOn(totals, events, states, Pair(a, b, {1, 2}), Started(3), Pair(a, b, {1, 2, 3}));
    events, states := events + [Started(3)], states + [Pair(a, b, {1, 2, 3})];
  }

  /** Process 1 holds a and waits for b, which process 2 holds. */
  lemma OneWaitsForTwo() returns (events: seq<Event>, states: seq<Table>)
    ensures IsRun(map["a" := 1, "b" := 1], events, states)
    ensures states[|events|] == Pair(Block(0, map[1 := 1], []), Block(0, map[2 := 1], [1]), {1, 2, 3})
  {
    var a0, a1 := Block(1, map[], []), Block(0, map[1 := 1], []);
    var b0, b1, b2 := Block(1, map[], []), Block(0, map[2 := 1], []), Block(0, map[2 := 1], [1]);
    var totals := map["a" := 1, "b" := 1];
    events, states := ThreeStart(a0, b0);
    PairWaitsA(a0, b0, a1, 1);
    RunGoesOn(totals, events, states, Pair(a0, b0, {1, 2, 3}), Waited(1, "a"), Pair(a1, b0, {1, 2, 3}));
    events, states := events + [Waited(1, "a")], states + [Pair(a1, b0, {1, 2, 3})];
    PairWaitsB(a1, b0, b1, 2);
    RunGoesOn(totals, events, states, Pair(a1, b0, {1, 2, 3}), Waited(2, "b"), Pair(a1, b1, {1, 2, 3}));
    events, states := events + [Waited(2, "b")], states + [Pair(a1, b1, {1, 2, 3})];
    PairWaitsB(a1, b1, b2, 1);
    RunGoesOn(totals, events, states, Pair(a1, b1, {1, 2, 3}), Waited(1, "b"), Pair(a1, b2, {1, 2, 3}));
    events, states := events + [Waited(1, "b")], states + [Pair(a1, b2, {1, 2, 3})];
  }

  /** One report by itself proves nothing: process 1 holds a and waits for b, which the running process 2 holds; when
      process 3 waits for a the analysis reports, and no set of processes is deadlocked. */
  lemma AnalysisCanCryWolf() returns (events: seq<Event>, states: seq<Table>, t: Table)
    ensures IsRun(map["a" := 1, "b" := 1], events, states) && Next(states[|events|], Waited(3, "a"), t)
    ensures "a" in t.blocks && t.blocks["a"].blocked == [3] && Reports(t, "a") && forall d :: !Deadlocked(t, d)
  {
    var a1, a2, b2 := Block(0, map[1 := 1], []), Block(0, map[1 := 1], [3]), Block(0, map[2 := 1], [1]);
    events, states := OneWaitsForTwo();
    PairWaitsA(a1, b2, a2, 3);
    t := Pair(a2, b2, {1, 2, 3});
    forall d ensures !Deadlocked(t, d) {
      PairIsNoDeadlock(a2, b2, d);
    }
    assert 1 in t.blocks["b"].blocked;
    ReportsIff(t, "a");
  }
}
