/** Two runs of scheduler and resources after which the console waits for ever although the scheduler alone could go
    on. */
module LostRuns {
  import opened Paging
  import S = Scheduler
  import R = Resources
  import D = Deadlocks
  import M = ManualFinish
  import opened JointKernel
  import opened LostFinish

  // ----- runs in pieces

  ghost predicate Reached(degree: nat, totals: map<string, nat>, s: State) {
    exists events, states :: IsRun(degree, totals, events, states) && states[|events|] == s
  }

  lemma RunGoesOn(degree: nat, totals: map<string, nat>, events: seq<Event>, states: seq<State>, s: State, e: Event,
                  u: State)
    requires IsRun(degree, totals, events, states) && states[|events|] == s && Next(s, e, u)
    ensures IsRun(degree, totals, events + [e], states + [u]) && (states + [u])[|events + [e]|] == u
  {
  }

  lemma ReachedNext(degree: nat, totals: map<string, nat>, s: State, e: Event, u: State)
    requires Reached(degree, totals, s) && Next(s, e, u)
    ensures Reached(degree, totals, u)
  {
    var events: seq<Event>, states: seq<State> :| IsRun(degree, totals, events, states) && states[|events|] == s;
    RunGoesOn(degree, totals, events, states, s, e, u);
    var longer, more := events + [e], states + [u];
    assert IsRun(degree, totals, longer, more) && more[|longer|] == u;
  }

  lemma ReachedInv(degree: nat, totals: map<string, nat>, s: State)
    requires Reached(degree, totals, s)
    ensures Inv(degree, totals, s)
  {
    var events: seq<Event>, states: seq<State> :| IsRun(degree, totals, events, states) && states[|events|] == s;
    KernelStaysLinked(degree, totals, events, states, |events|);
  }

  /** Who runs or is about to, who is ready, whose page is being loaded, and whom the console waits for; nobody is
      new, and nobody sleeps. */
  predicate Scene(k: S.Kernel, exec: seq<Pid>, ready: seq<Pid>, fault: seq<Pid>, running: bool, finishing: set<Pid>) {
    && S.In(k, S.Exec) == exec && S.In(k, S.Ready) == ready && S.In(k, S.Fault) == fault
    && S.In(k, S.New) == [] && S.In(k, S.Sleep) == [] && S.In(k, S.Interrupt) == []
    && S.In(k, S.FileWait) == [] && S.In(k, S.FileCall) == []
    && k.running == running && k.execPosts == S.One(exec != [] && !running) && k.finishPosts == 0
    && k.finishing == finishing && k.message == (finishing != {})
  }

  /** Before anybody has run: the first n processes are ready. */
  predicate Opening(k: S.Kernel, ready: seq<Pid>, places: nat) {
    && Scene(k, [], ready, [], false, {}) && S.In(k, S.Exit) == [] && k.newPosts == 0 && !k.admitting && k.grd >= places
    && k.next == |ready| + 1
  }

  // ----- the steps

  lemma OpeningReached(degree: nat, totals: map<string, nat>) returns (s: State)
    ensures Reached(degree, totals, s) && Opening(s.k, [], degree) && R.Initial(totals, s.t)
  {
    var k := S.Kernel(map[], {}, {}, 0, degree, 0, 0, 0, 0, false, false, {}, false, 1);
    s := State(k, R.Table(map r | r in totals :: R.Block(totals[r], map[], []), 0, {}));
    var events: seq<Event>, states: seq<State> := [], [s];
    assert IsRun(degree, totals, events, states) && states[|events|] == s;
  }

  lemma AdmitNext(degree: nat, totals: map<string, nat>, s: State, ready: seq<Pid>, places: nat) returns (u: State)
    requires Reached(degree, totals, s) && Opening(s.k, ready, places) && places > 0
    ensures Reached(degree, totals, u) && Opening(u.k, ready + [|ready| + 1], places - 1)
    ensures u.t == s.t.(live := s.t.live + {|ready| + 1})
  {
    var y := |ready| + 1;
    var t := s.t.(live := s.t.live + {y});
    var k1 := S.Created(s.k, y);
    assert S.In(k1, S.New) == [y];
    ReachedNext(degree, totals, s, Creates(y), State(k1, t));
    var k2 := S.AdmissionStarted(k1);
    ReachedNext(degree, totals, State(k1, t), Plain(S.StartAdmission), State(k2, t));
    var k3 := S.Admitted(k2);
    assert S.In(k3, S.New) == [] && S.In(k3, S.Ready) == ready + [y];
    u := State(k3, t);
    ReachedNext(degree, totals, State(k2, t), Plain(S.Admit), u);
  }

  lemma Dispatches(degree: nat, k: S.Kernel, y: Pid, ready: seq<Pid>, fault: seq<Pid>, f: set<Pid>)
    requires S.Inv(degree, k) && Scene(k, [], [y] + ready, fault, false, f)
    ensures k.readyPosts > 0
    ensures var l := S.Dispatched(k, S.FifoOrder, map[]);
      Scene(l, [y], ready, fault, false, f) && l.live == k.live && S.In(l, S.Exit) == S.In(k, S.Exit)
  {
    var l := S.Dispatched(k, S.FifoOrder, map[]);
    assert S.In(l, S.Ready) == ready && S.In(l, S.Exec) == [y];
  }

  lemma Chosen(degree: nat, totals: map<string, nat>, s: State, y: Pid, ready: seq<Pid>, fault: seq<Pid>, f: set<Pid>)
    returns (u: State)
    requires Reached(degree, totals, s) && Scene(s.k, [], [y] + ready, fault, false, f)
    ensures Reached(degree, totals, u) && Scene(u.k, [y], ready, fault, false, f) && u.t == s.t
    ensures S.In(u.k, S.Exit) == S.In(s.k, S.Exit)
  {
    ReachedInv(degree, totals, s);
    Dispatches(degree, s.k, y, ready, fault, f);
    u := State(S.Dispatched(s.k, S.FifoOrder, map[]), s.t);
    ReachedNext(degree, totals, s, Plain(S.Dispatch(S.FifoOrder, map[])), u);
  }

  /** The first of READY gets the CPU. */
  lemma Starts(degree: nat, totals: map<string, nat>, s: State, y: Pid, ready: seq<Pid>, fault: seq<Pid>, f: set<Pid>)
    returns (u: State)
    requires Reached(degree, totals, s) && Scene(s.k, [], [y] + ready, fault, false, f)
    ensures Reached(degree, totals, u) && Scene(u.k, [y], ready, fault, true, f) && u.t == s.t
    ensures S.In(u.k, S.Exit) == S.In(s.k, S.Exit)
  {
    var v := Chosen(degree, totals, s, y, ready, fault, f);
    u := State(S.Sent(v.k), s.t);
    ReachedNext(degree, totals, v, Plain(S.Send), u);
  }

  /** A page fault takes the process out of the CPU. */
  lemma Faults(degree: nat, totals: map<string, nat>, s: State, y: Pid, ready: seq<Pid>, fault: seq<Pid>, f: set<Pid>)
    returns (u: State)
    requires Reached(degree, totals, s) && Scene(s.k, [y], ready, fault, true, f)
    ensures Reached(degree, totals, u) && Scene(u.k, [], ready, fault + [y], false, f) && u.t == s.t
    ensures S.In(u.k, S.Exit) == S.In(s.k, S.Exit)
  {
    u := State(S.Returned(s.k, S.PageFaulted), s.t);
    assert S.In(u.k, S.Exec) == [] && S.In(u.k, S.Fault) == fault + [y];
    ReachedNext(degree, totals, s, Plain(S.Return(S.PageFaulted)), u);
  }

  /** The first page has come, and its process is ready again. */
  lemma ComesBack(degree: nat, totals: map<string, nat>, s: State, y: Pid, ready: seq<Pid>, fault: seq<Pid>,
                  f: set<Pid>)
    returns (u: State)
    requires Reached(degree, totals, s) && Scene(s.k, [], ready, [y] + fault, false, f)
    ensures Reached(degree, totals, u) && Scene(u.k, [], ready + [y], fault, false, f) && u.t == s.t
    ensures S.In(u.k, S.Exit) == S.In(s.k, S.Exit)
  {
    u := State(S.Woken(s.k, S.Fault, y), s.t);
    assert S.In(u.k, S.Fault) == fault && S.In(u.k, S.Ready) == ready + [y];
    ReachedNext(degree, totals, s, Plain(S.Wake(S.Fault, y)), u);
  }

  /** WAIT takes an instance, and the process goes on. */
  lemma Takes(degree: nat, totals: map<string, nat>, s: State, y: Pid, r: string, ready: seq<Pid>, fault: seq<Pid>,
              f: set<Pid>) returns (u: State)
    requires Reached(degree, totals, s) && Scene(s.k, [y], ready, fault, true, f)
    requires r in s.t.blocks && s.t.blocks[r].instances > 0
    ensures Reached(degree, totals, u) && Scene(u.k, [y], ready, fault, true, f) && u.t == R.Wait(s.t, y, r)
    ensures S.In(u.k, S.Exit) == S.In(s.k, S.Exit)
  {
    var v := State(S.Returned(s.k, WaitReason(s.t, r)), R.Wait(s.t, y, r));
    ReachedNext(degree, totals, s, Waits(r), v);
    u := State(S.Sent(v.k), v.t);
    ReachedNext(degree, totals, v, Plain(S.Send), u);
  }

  /** WAIT finds none, and the process leaves EXEC. */
  lemma Blocks(degree: nat, totals: map<string, nat>, s: State, y: Pid, r: string, ready: seq<Pid>, fault: seq<Pid>,
               f: set<Pid>) returns (u: State)
    requires Reached(degree, totals, s) && Scene(s.k, [y], ready, fault, true, f)
    requires r in s.t.blocks && s.t.blocks[r].instances <= 0
    ensures Reached(degree, totals, u) && Scene(u.k, [], ready, fault, false, f) && u.t == R.Wait(s.t, y, r)
    ensures S.In(u.k, S.Exit) == S.In(s.k, S.Exit)
  {
    u := State(S.Returned(s.k, WaitReason(s.t, r)), R.Wait(s.t, y, r));
    assert S.In(u.k, S.Exec) == [];
    ReachedNext(degree, totals, s, Waits(r), u);
  }

  /** The console asks for the end of the running process. */
  lemma Asks(degree: nat, totals: map<string, nat>, s: State, y: Pid, ready: seq<Pid>, fault: seq<Pid>)
    returns (u: State)
    requires Reached(degree, totals, s) && Scene(s.k, [y], ready, fault, true, {})
    ensures Reached(degree, totals, u) && Scene(u.k, [y], ready, fault, true, {y}) && u.t == s.t
    ensures S.In(u.k, S.Exit) == S.In(s.k, S.Exit)
  {
    u := State(S.Killed(s.k, S.Exec, y), s.t);
    ReachedNext(degree, totals, s, Plain(S.Kill(S.Exec, y)), u);
  }

  // ----- two resources

  function Table(a: R.Block, b: R.Block, posts: nat, live: set<Pid>): R.Table {
    R.Table(map["a" := a, "b" := b], posts, live)
  }

  lemma WaitInTable(a: R.Block, b: R.Block, posts: nat, live: set<Pid>, y: Pid)
    ensures R.Wait(Table(a, b, posts, live), y, "a") == Table(R.WaitOn(a, y), b, posts, live)
    ensures R.Wait(Table(a, b, posts, live), y, "b") == Table(a, R.WaitOn(b, y), posts, live)
  {
  }

  lemma FirstTable(totals: map<string, nat>, t: R.Table, n: nat, m: nat)
    requires totals == map["a" := n, "b" := m] && R.Initial(totals, t)
    ensures t == Table(R.Block(n, map[], []), R.Block(m, map[], []), 0, {})
  {
    assert t.blocks == map["a" := R.Block(n, map[], []), "b" := R.Block(m, map[], [])];
  }

  lemma ThreeReady(degree: nat, n: nat, m: nat) returns (s: State)
    requires degree >= 3
    ensures Reached(degree, map["a" := n, "b" := m], s) && Scene(s.k, [], [1, 2, 3], [], false, {})
    ensures S.In(s.k, S.Exit) == []
    ensures s.t == Table(R.Block(n, map[], []), R.Block(m, map[], []), 0, {1, 2, 3})
  {
    var totals := map["a" := n, "b" := m];
    var s0 := OpeningReached(degree, totals);
    FirstTable(totals, s0.t, n, m);
    var s1 := AdmitNext(degree, totals, s0, [], degree);
    assert [] + [1] == [1] && {} + {1} == {1};
    var s2 := AdmitNext(degree, totals, s1, [1], degree - 1);
    assert [1] + [2] == [1, 2] && {1} + {2} == {1, 2};
    s := AdmitNext(degree, totals, s2, [1, 2], degree - 2);
    assert [1, 2] + [3] == [1, 2, 3] && {1, 2} + {3} == {1, 2, 3};
  }

  // ----- the target in a deadlock

  const One: R.Block := R.Block(1, map[], [])
  const Held1: R.Block := R.Block(0, map[1 := 1], [])
  const Held2: R.Block := R.Block(0, map[2 := 1], [])
  const Held1For2: R.Block := R.Block(0, map[1 := 1], [2])
  const Held2For1: R.Block := R.Block(0, map[2 := 1], [1])
  const All: set<Pid> := {1, 2, 3}

  lemma Holdings()
    ensures R.WaitOn(One, 1) == Held1 && R.WaitOn(One, 2) == Held2
    ensures R.WaitOn(Held1, 2) == Held1For2 && R.WaitOn(Held2, 1) == Held2For1
  {
    var none: map<Pid, int> := map[];
    assert none[1 := 1] == map[1 := 1] && none[2 := 1] == map[2 := 1];
  }

  /** Process 1 has taken a and faulted; process 2 has taken b and waits for a; process 3 has faulted. */
  lemma TwoWaitsForOne(degree: nat) returns (s: State)
    requires degree >= 3
    ensures Reached(degree, map["a" := 1, "b" := 1], s) && Scene(s.k, [], [], [1, 3], false, {})
    ensures s.t == Table(Held1For2, Held2, 0, All)
  {
    var totals := map["a" := 1, "b" := 1];
    Holdings();
    var s0 := ThreeReady(degree, 1, 1);
    assert [1, 2, 3] == [1] + [2, 3] && [2, 3] == [2] + [3] && [3] == [3] + [] && [] + [1] == [1] &&
      [1] + [3] == [1, 3];
    var s1 := Starts(degree, totals, s0, 1, [2, 3], [], {});
    WaitInTable(One, One, 0, All, 1);
    var s2 := Takes(degree, totals, s1, 1, "a", [2, 3], [], {});
    var s3 := Faults(degree, totals, s2, 1, [2, 3], [], {});
    var s4 := Starts(degree, totals, s3, 2, [3], [1], {});
    WaitInTable(Held1, One, 0, All, 2);
    var s5 := Takes(degree, totals, s4, 2, "b", [3], [1], {});
    WaitInTable(Held1, Held2, 0, All, 2);
    var s6 := Blocks(degree, totals, s5, 2, "a", [3], [1], {});
    var s7 := Starts(degree, totals, s6, 3, [], [1], {});
    s := Faults(degree, totals, s7, 3, [], [1], {});
  }

  lemma PairDeadlocked(t: R.Table)
    requires t == Table(Held1For2, Held2For1, 0, All)
    ensures D.InDeadlock(t, 1) && R.IsBlocked(t, 1)
  {
    var d: set<Pid> := {1, 2};
    assert D.Stuck(t, d, 1, "b") && D.Stuck(t, d, 2, "a");
    assert D.Deadlocked(t, d);
  }

  lemma ThirdGoesOn(degree: nat, totals: map<string, nat>, s: State)
    requires Reached(degree, totals, s) && S.In(s.k, S.Fault) == [3]
    ensures !Forgotten(s)
  {
    ReachedInv(degree, totals, s);
    assert 3 in S.In(s.k, S.Fault);
    AWitnessRuns(s, 3);
  }

  lemma DeadlockReached(degree: nat) returns (s: State)
    requires degree >= 3
    ensures Reached(degree, map["a" := 1, "b" := 1], s) && Scene(s.k, [], [], [3], false, {1})
    ensures s.t == Table(Held1For2, Held2For1, 0, All)
  {
    var totals := map["a" := 1, "b" := 1];
    Holdings();
    var s0 := TwoWaitsForOne(degree);
    assert [1, 3] == [1] + [3] && [] + [1] == [1] && [1] == [1] + [];
    var s1 := ComesBack(degree, totals, s0, 1, [], [3], {});
    var s2 := Starts(degree, totals, s1, 1, [], [3], {});
    var s3 := Asks(degree, totals, s2, 1, [], [3]);
    WaitInTable(Held1For2, Held2, 0, All, 1);
    s := Blocks(degree, totals, s3, 1, "b", [], [3], {1});
  }

  /** The target executes a WAIT that closes a deadlock before its interrupt is looked at: the scheduler alone could
      go on, another process does go on, and yet the console waits for ever. */
  lemma TargetCanDeadlock(degree: nat) returns (events: seq<Event>, states: seq<State>)
    requires degree >= 3
    ensures IsRun(degree, map["a" := 1, "b" := 1], events, states)
    ensures var s := states[|events|];
      s.k.finishing == {1} && Lost(s) && TargetDeadlocked(s) && !M.OutOfReach(s.k) && !Forgotten(s)
  {
    var totals := map["a" := 1, "b" := 1];
    var s := DeadlockReached(degree);
    PairDeadlocked(s.t);
    ThirdGoesOn(degree, totals, s);
    BlockedIsNotOutOfReach(degree, totals, s, 1);
    events, states :| IsRun(degree, totals, events, states) && states[|events|] == s;
    ManualFinishIsLostIff(degree, totals, events, states, |events|);
  }

  lemma BlockedIsNotOutOfReach(degree: nat, totals: map<string, nat>, s: State, x: Pid)
    requires Reached(degree, totals, s) && R.IsBlocked(s.t, x) && Scene(s.k, [], [], S.In(s.k, S.Fault), false, {x})
    ensures !M.OutOfReach(s.k)
  {
    ReachedInv(degree, totals, s);
    BlockedIsElsewhere(degree, totals, s, x);
  }

  // ----- the target forgotten in front of a free instance

  /** The process ends by itself. */
  lemma Leaves(degree: nat, totals: map<string, nat>, s: State, y: Pid, ready: seq<Pid>, fault: seq<Pid>, f: set<Pid>)
    returns (u: State)
    requires Reached(degree, totals, s) && Scene(s.k, [y], ready, fault, true, f) && S.In(s.k, S.Exit) == []
    ensures Reached(degree, totals, u) && Scene(u.k, [], ready, fault, false, f) && S.In(u.k, S.Exit) == [y] &&
      u.t == s.t
  {
    u := State(S.Returned(s.k, S.Finished), s.t);
    assert S.In(u.k, S.Exec) == [] && S.In(u.k, S.Exit) == [y];
    ReachedNext(degree, totals, s, Plain(S.Return(S.Finished)), u);
  }

  /** It is eliminated, and gives back what it holds. */
  lemma IsDrained(degree: nat, totals: map<string, nat>, s: State, y: Pid, ready: seq<Pid>, fault: seq<Pid>,
                  f: set<Pid>)
    returns (u: State)
    requires Reached(degree, totals, s) && Scene(s.k, [], ready, fault, false, f) && S.In(s.k, S.Exit) == [y]
    ensures Reached(degree, totals, u) && Scene(u.k, [], ready, fault, false, f) && S.In(u.k, S.Exit) == []
    ensures u.t == R.Remove(s.t, y)
  {
    ReachedInv(degree, totals, s);
    assert y in S.In(s.k, S.Exit);
    u := State(S.Drained(s.k), R.Remove(s.t, y));
    assert S.In(u.k, S.Exit) == [];
    EndNext(s, S.Drain, y, u.k);
    ReachedNext(degree, totals, s, Ends(S.Drain, y), u);
  }

  /** One turn of unblock_processes serves the head of a. */
  lemma ServesA(degree: nat, totals: map<string, nat>, s: State, y: Pid, f: set<Pid>) returns (u: State)
    requires Reached(degree, totals, s) && Scene(s.k, [], [], [], false, f) && s.t.posts > 0
    requires "a" in s.t.blocks && IsServed(s.t, "a") && s.t.blocks["a"].blocked[0] == y
    requires forall r :: r in s.t.blocks && IsServed(s.t, r) ==> r == "a"
    ensures Reached(degree, totals, u) && Scene(u.k, [], [y], [], false, f) && u.t == R.Unblock(s.t)
    ensures S.In(u.k, S.Exit) == S.In(s.k, S.Exit)
  {
    ReachedInv(degree, totals, s);
    var order := ["a"];
    u := State(WokenAll(s.k, order), R.Unblock(s.t));
    WokenElsewhere(s.k, order);
    var p := S.Blocked("a");
    assert S.In(s.k, p)[0] == y && order[1..] == [];
    assert WokenAll(S.Woken(s.k, p, y), []) == S.Woken(s.k, p, y);
    assert S.In(u.k, S.Ready) == [y];
    ReachedNext(degree, totals, s, Unblocks(order), u);
  }

  const Two: R.Block := R.Block(2, map[], [])
  const OneTaken: R.Block := R.Block(1, map[1 := 1], [])
  const BothTaken: R.Block := R.Block(0, map[1 := 2], [])
  const TwoWaits: R.Block := R.Block(0, map[1 := 2], [3])
  const BothWait: R.Block := R.Block(0, map[1 := 2], [3, 2])
  const BothBack: R.Block := R.Block(2, map[], [3, 2])
  const OneServed: R.Block := R.Block(1, map[3 := 1], [2])
  const Nothing: R.Block := R.Block(0, map[], [])
  const Wanted: R.Block := R.Block(0, map[], [3])

  lemma Takings()
    ensures R.WaitOn(Two, 1) == OneTaken && R.WaitOn(OneTaken, 1) == BothTaken
    ensures R.WaitOn(BothTaken, 3) == TwoWaits && R.WaitOn(TwoWaits, 2) == BothWait
    ensures R.WaitOn(Nothing, 3) == Wanted && R.Served(BothBack) == OneServed && R.Served(Nothing) == Nothing
  {
    var none: map<Pid, int> := map[];
    assert none[1 := 1] == map[1 := 1] && map[1 := 1][1 := 2] == map[1 := 2] && none[3 := 1] == map[3 := 1];
    assert [3] + [2] == [3, 2] && [3, 2][1..] == [2];
  }

  lemma BothGivenBack()
    ensures R.Cleared(BothWait, 1) == BothBack && R.Cleared(Nothing, 1) == Nothing
    ensures R.Remove(Table(BothWait, Nothing, 0, All), 1) == Table(BothBack, Nothing, 1, {2, 3})
  {
    R.RemoveFirstAbsent([3, 2], 1);
    assert map[1 := 2] - {1} == map[];
    var t := Table(BothWait, Nothing, 0, All);
    assert R.HeldBy(t, 1) == {"a"};
    assert R.Remove(t, 1).blocks == map["a" := BothBack, "b" := Nothing];
    assert All - {1} == {2, 3};
  }

  lemma HeadOfAServed()
    ensures R.Unblock(Table(BothBack, Nothing, 1, {2, 3})) == Table(OneServed, Nothing, 0, {2, 3})
  {
    Takings();
    assert R.Unblock(Table(BothBack, Nothing, 1, {2, 3})).blocks == map["a" := OneServed, "b" := Nothing];
  }

  /** Process 1 has taken both instances of a, and has faulted. */
  lemma FirstTakesBoth(degree: nat) returns (s: State)
    requires degree >= 3
    ensures Reached(degree, map["a" := 2, "b" := 0], s) && Scene(s.k, [], [2, 3], [1], false, {})
    ensures S.In(s.k, S.Exit) == [] && s.t == Table(BothTaken, Nothing, 0, All)
  {
    var totals := map["a" := 2, "b" := 0];
    Takings();
    var s0 := ThreeReady(degree, 2, 0);
    assert [1, 2, 3] == [1] + [2, 3] && [] + [1] == [1];
    var s1 := Starts(degree, totals, s0, 1, [2, 3], [], {});
    WaitInTable(Two, Nothing, 0, All, 1);
    var s2 := Takes(degree, totals, s1, 1, "a", [2, 3], [], {});
    WaitInTable(OneTaken, Nothing, 0, All, 1);
    var s3 := Takes(degree, totals, s2, 1, "a", [2, 3], [], {});
    s := Faults(degree, totals, s3, 1, [2, 3], [], {});
  }

  /** Process 2 has faulted, and process 3 waits for a. */
  lemma ThirdWaits(degree: nat) returns (s: State)
    requires degree >= 3
    ensures Reached(degree, map["a" := 2, "b" := 0], s) && Scene(s.k, [], [], [1, 2], false, {})
    ensures S.In(s.k, S.Exit) == [] && s.t == Table(TwoWaits, Nothing, 0, All)
  {
    var totals := map["a" := 2, "b" := 0];
    Takings();
    var s4 := FirstTakesBoth(degree);
    assert [2, 3] == [2] + [3] && [3] == [3] + [] && [1] + [2] == [1, 2];
    var s5 := Starts(degree, totals, s4, 2, [3], [1], {});
    var s6 := Faults(degree, totals, s5, 2, [3], [1], {});
    var s7 := Starts(degree, totals, s6, 3, [], [1, 2], {});
    WaitInTable(BothTaken, Nothing, 0, All, 3);
    s := Blocks(degree, totals, s7, 3, "a", [], [1, 2], {});
  }

  /** The console asks for the end of process 2, which waits for a behind process 3; process 1 has ended. */
  lemma TargetWaits(degree: nat) returns (s: State)
    requires degree >= 3
    ensures Reached(degree, map["a" := 2, "b" := 0], s) && Scene(s.k, [], [], [], false, {2})
    ensures S.In(s.k, S.Exit) == [1] && s.t == Table(BothWait, Nothing, 0, All)
  {
    var totals := map["a" := 2, "b" := 0];
    Takings();
    var s0 := ThirdWaits(degree);
    assert [1, 2] == [1] + [2] && [] + [1] == [1] && [1] + [2] == [1, 2] && [2] == [2] + [] && [1] == [1] + [];
    var s1 := ComesBack(degree, totals, s0, 1, [], [2], {});
    var s2 := ComesBack(degree, totals, s1, 2, [1], [], {});
    var s3 := Starts(degree, totals, s2, 1, [2], [], {});
    var s4 := Faults(degree, totals, s3, 1, [2], [], {});
    var s5 := Starts(degree, totals, s4, 2, [], [1], {});
    var s6 := Asks(degree, totals, s5, 2, [], [1]);
    WaitInTable(TwoWaits, Nothing, 0, All, 2);
    var s7 := Blocks(degree, totals, s6, 2, "a", [], [1], {2});
    var s8 := ComesBack(degree, totals, s7, 1, [], [], {2});
    var s9 := Starts(degree, totals, s8, 1, [], [], {2});
    s := Leaves(degree, totals, s9, 1, [], [], {2});
  }

  /** The one wake-up has served process 3, which waits for a resource without instances; the target waits in front of
      a free instance. */
  lemma ForgottenReached(degree: nat) returns (s: State)
    requires degree >= 3
    ensures Reached(degree, map["a" := 2, "b" := 0], s) && Scene(s.k, [], [], [], false, {2})
    ensures S.In(s.k, S.Exit) == [] && s.t == Table(OneServed, Wanted, 0, {2, 3})
  {
    var totals := map["a" := 2, "b" := 0];
    Takings();
    BothGivenBack();
    HeadOfAServed();
    assert [3] == [3] + [];
    var s0 := TargetWaits(degree);
    var s1 := IsDrained(degree, totals, s0, 1, [], [], {2});
    var s2 := ServesA(degree, totals, s1, 3, {2});
    var s3 := Starts(degree, totals, s2, 3, [], [], {2});
    WaitInTable(OneServed, Nothing, 0, {2, 3}, 3);
    s := Blocks(degree, totals, s3, 3, "b", [], [], {2});
  }

  lemma NobodyIsLeft(s: State)
    requires Scene(s.k, [], [], [], false, {2}) && S.In(s.k, S.Exit) == [] && s.t.posts == 0
    ensures Forgotten(s)
  {
  }

  /** A free instance is no deadlock. */
  lemma InFrontOfAFreeOne(t: R.Table, d: set<Pid>)
    requires t == Table(OneServed, Wanted, 0, {2, 3}) && 2 in d
    ensures !D.Deadlocked(t, d) && R.IsBlocked(t, 2)
  {
    assert 2 in t.blocks["a"].blocked;
    assert forall r :: !D.Stuck(t, d, 2, r);
  }

  /** A removal gives back two instances with one wake-up, and whoever was served by it waits for ever elsewhere: the
      target waits in front of a free instance, in no deadlock, and the console waits for ever. */
  lemma TargetCanBeForgotten(degree: nat) returns (events: seq<Event>, states: seq<State>)
    requires degree >= 3
    ensures IsRun(degree, map["a" := 2, "b" := 0], events, states)
    ensures var s := states[|events|];
      s.k.finishing == {2} && Lost(s) && Forgotten(s) && !M.OutOfReach(s.k) && !TargetDeadlocked(s)
  {
    var totals := map["a" := 2, "b" := 0];
    var s := ForgottenReached(degree);
    NobodyIsLeft(s);
    forall d: set<Pid> | 2 in d ensures !D.Deadlocked(s.t, d) {
      InFrontOfAFreeOne(s.t, d);
    }
    InFrontOfAFreeOne(s.t, {2});
    BlockedIsNotOutOfReach(degree, totals, s, 2);
    events, states :| IsRun(degree, totals, events, states) && states[|events|] == s;
    ManualFinishIsLostIff(degree, totals, events, states, |events|);
  }
}
