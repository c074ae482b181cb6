/** The manual finish in the kernel of scheduler and resources, where a process that waits for a resource comes back
    only when somebody gives an instance: exactly when the console waits for ever. Waits for a page, a file or the
    file system may end at any time. */
module LostFinish {
  import opened Paging
  import S = Scheduler
  import R = Resources
  import D = Deadlocks
  import M = ManualFinish
  import opened JointKernel

  // ----- continuations

  ghost predicate Continues(s: State, events: seq<Event>, states: seq<State>) {
    && |states| == |events| + 1
    && states[0] == s
    && (forall i :: 0 <= i < |events| ==> Next(states[i], events[i], states[i + 1]))
  }

  predicate IsFinish(e: Event) {
    (e.Plain? || e.Ends?) && e.step.FinishByHand?
  }

  predicate Finishes(events: seq<Event>) {
    exists i :: 0 <= i < |events| && IsFinish(events[i])
  }

  /** The console waits for ever: whatever the processes call from now on, its wait does not end. */
  ghost predicate Lost(s: State) {
    forall events, states :: Continues(s, events, states) ==> !Finishes(events)
  }

  // ----- what can be seen of that in the state

  predicate MarkedAsleep(k: S.Kernel, y: Pid) {
    (y in S.In(k, S.Sleep) || y in S.In(k, S.Interrupt)) && y in k.marked
  }

  /** The process is ready, runs, or waits for something that comes by itself. */
  predicate MayRun(k: S.Kernel, y: Pid) {
    || y in S.In(k, S.Ready) || y in S.In(k, S.Exec)
    || y in S.In(k, S.Fault) || y in S.In(k, S.FileWait) || y in S.In(k, S.FileCall)
    || ((y in S.In(k, S.Sleep) || y in S.In(k, S.Interrupt)) && y !in k.marked)
  }

  /** The process will be eliminated without running again. */
  predicate WillEnd(k: S.Kernel, y: Pid) {
    y in S.In(k, S.Exit) || MarkedAsleep(k, y)
  }

  /** A process of NEW finds a place, now or when a marked process leaves one. */
  predicate MayAdmit(k: S.Kernel) {
    S.In(k, S.New) != [] && (k.grd > 0 || exists y :: y in k.live && MarkedAsleep(k, y))
  }

  /** Nobody is left who could wake anybody: no wake-up is pending, no process may run or be admitted, and none that
      will be eliminated holds an instance. */
  predicate Forgotten(s: State) {
    && s.t.posts == 0
    && (forall y :: y in s.k.live ==> !MayRun(s.k, y))
    && (forall y :: y in s.k.live && WillEnd(s.k, y) ==> R.HeldBy(s.t, y) == {})
    && !MayAdmit(s.k)
  }

  ghost predicate TargetDeadlocked(s: State) {
    exists x :: x in s.k.finishing && D.InDeadlock(s.t, x)
  }

  ghost predicate Hopeless(s: State) {
    M.OutOfReach(s.k) || TargetDeadlocked(s) || Forgotten(s)
  }

  // ----- what every run keeps besides

  /** A process that was never admitted holds no resource. */
  ghost predicate NewHoldNothing(s: State) {
    forall r, y :: r in s.t.blocks && y in s.t.blocks[r].pids ==> y !in S.In(s.k, S.New)
  }

  lemma NewShrinks(k: S.Kernel, e: S.Event, l: S.Kernel, y: Pid)
    requires S.Next(k, e, l) && !e.Create? && y in S.In(l, S.New)
    ensures y in S.In(k, S.New)
  {
    if e.Admit? {
      SubsetAfterRemoval(S.In(k, S.New), S.In(k, S.New)[0], y);
    } else if e.Kill? && e.place == S.New {
      SubsetAfterRemoval(S.In(k, S.New), e.pid, y);
    } else {
      S.NewUntouched(k, e, l);
    }
  }

  lemma {:induction false} SubsetAfterRemoval<T>(s: seq<T>, x: T, y: T)
    requires y in RemoveFirst(s, x)
    ensures y in s
  {
    if s[0] != x && y != s[0] {
      SubsetAfterRemoval(s[1..], x, y);
    }
  }

  /** A turn of unblock_processes changes nothing but READY and the lists of the resources. */
  lemma {:induction false} WokenElsewhere(k: S.Kernel, order: seq<string>)
    ensures var l := WokenAll(k, order);
      && l.live == k.live && l.marked == k.marked && l.grd == k.grd && l.execPosts == k.execPosts
      && l.finishPosts == k.finishPosts && l.running == k.running && l.finishing == k.finishing
      && l.message == k.message && l.next == k.next
      && (forall p :: p != S.Ready && !p.Blocked? ==> S.In(l, p) == S.In(k, p))
    decreases |order|
  {
    if order != [] && S.In(k, S.Blocked(order[0])) != [] {
      WokenElsewhere(S.Woken(k, S.Blocked(order[0]), S.In(k, S.Blocked(order[0]))[0]), order[1..]);
    }
  }

  lemma HolderIsNotNew(degree: nat, totals: map<string, nat>, s: State, e: Event, u: State, r: string, y: Pid)
    requires Inv(degree, totals, s) && NewHoldNothing(s) && Next(s, e, u) && !e.Creates? && !e.Unblocks?
    requires r in u.t.blocks && y in u.t.blocks[r].pids
    ensures y !in S.In(s.k, S.New)
  {
    assert r in s.t.blocks;
    if y !in s.t.blocks[r].pids {
      assert e.Waits? && y == S.In(s.k, S.Exec)[0];
      assert y in S.In(s.k, S.Exec);
    }
  }

  lemma WokenIsNotNew(degree: nat, totals: map<string, nat>, s: State, r: string, y: Pid)
    requires Inv(degree, totals, s) && NewHoldNothing(s) && s.t.posts > 0
    requires r in s.t.blocks && y in R.Unblock(s.t).blocks[r].pids
    ensures y !in S.In(s.k, S.New)
  {
    if y !in s.t.blocks[r].pids {
      assert y == s.t.blocks[r].blocked[0] && y in s.t.blocks[r].blocked;
      assert y in S.In(s.k, S.Blocked(r));
    }
  }

  lemma NewStep(degree: nat, totals: map<string, nat>, s: State, e: Event, u: State)
    requires Inv(degree, totals, s) && NewHoldNothing(s) && Next(s, e, u)
    ensures NewHoldNothing(u)
  {
    forall r, y | r in u.t.blocks && y in u.t.blocks[r].pids ensures y !in S.In(u.k, S.New) {
      if e.Unblocks? {
        WokenIsNotNew(degree, totals, s, r, y);
        WokenElsewhere(s.k, e.order);
      } else if e.Creates? {
        assert y in s.t.live;
      } else {
        HolderIsNotNew(degree, totals, s, e, u, r, y);
        if y in S.In(u.k, S.New) {
          NewShrinks(s.k, SchedulerEvent(s, e), u.k, y);
        }
      }
    }
  }

  lemma {:induction false} NewKept(degree: nat, totals: map<string, nat>, events: seq<Event>, states: seq<State>,
                                   i: nat)
    requires IsRun(degree, totals, events, states) && i <= |events|
    ensures NewHoldNothing(states[i])
  {
    if i > 0 {
      NewKept(degree, totals, events, states, i - 1);
      KernelStaysLinked(degree, totals, events, states, i - 1);
      NewStep(degree, totals, states[i - 1], events[i - 1], states[i]);
    }
  }

  ghost predicate Waiting(degree: nat, totals: map<string, nat>, s: State) {
    Inv(degree, totals, s) && NewHoldNothing(s) && M.Waiting(degree, s.k)
  }

  lemma {:induction false} WokenWaits(degree: nat, k: S.Kernel, order: seq<string>)
    requires M.Waiting(degree, k)
    ensures M.Waiting(degree, WokenAll(k, order))
    decreases |order|
  {
    if order != [] && S.In(k, S.Blocked(order[0])) != [] {
      var p := S.Blocked(order[0]);
      var e, l := S.Wake(p, S.In(k, p)[0]), S.Woken(k, p, S.In(k, p)[0]);
      M.WaitingStep(degree, k, e, l);
      WokenWaits(degree, l, order[1..]);
    }
  }

  lemma WaitingStep(degree: nat, totals: map<string, nat>, s: State, e: Event, u: State)
    requires Waiting(degree, totals, s) && Next(s, e, u) && !IsFinish(e)
    ensures Waiting(degree, totals, u) && u.k.finishing == s.k.finishing
  {
    NextKeeps(degree, totals, s, e, u);
    NewStep(degree, totals, s, e, u);
    if e.Unblocks? {
      WokenElsewhere(s.k, e.order);
      WokenWaits(degree, s.k, e.order);
    } else {
      M.WaitingStep(degree, s.k, SchedulerEvent(s, e), u.k);
      FinishingStays(s.k, SchedulerEvent(s, e), u.k);
    }
  }

  lemma FinishingStays(k: S.Kernel, e: S.Event, l: S.Kernel)
    requires S.Next(k, e, l) && k.finishing != {} && !e.FinishByHand?
    ensures l.finishing == k.finishing
  {
  }

  // ----- hopeless is for ever

  lemma {:induction false} WokenInVain(degree: nat, k: S.Kernel, order: seq<string>)
    requires M.WaitsInVain(degree, k)
    ensures M.WaitsInVain(degree, WokenAll(k, order))
    decreases |order|
  {
    if order != [] && S.In(k, S.Blocked(order[0])) != [] {
      var p := S.Blocked(order[0]);
      var e, l := S.Wake(p, S.In(k, p)[0]), S.Woken(k, p, S.In(k, p)[0]);
      M.InVainStep(degree, k, e, l);
      WokenInVain(degree, l, order[1..]);
    }
  }

  lemma OutOfReachStep(degree: nat, totals: map<string, nat>, s: State, e: Event, u: State)
    requires Waiting(degree, totals, s) && M.OutOfReach(s.k) && Next(s, e, u)
    ensures !IsFinish(e) && M.OutOfReach(u.k)
  {
    if e.Unblocks? {
      WokenInVain(degree, s.k, e.order);
    } else {
      M.InVainStep(degree, s.k, SchedulerEvent(s, e), u.k);
    }
  }

  /** While the console waits, nobody is eliminated who is blocked for a resource. */
  lemma BlockedDoNotEnd(degree: nat, totals: map<string, nat>, s: State, step: S.Event, pid: Pid, u: State)
    requires Inv(degree, totals, s) && s.k.finishing != {} && Next(s, Ends(step, pid), u)
    ensures !R.IsBlocked(s.t, pid)
  {
    EndedFrom(degree, s.k, step, pid, u.k);
    forall r | r in s.t.blocks ensures pid !in s.t.blocks[r].blocked {
      assert S.In(s.k, S.Blocked(r)) == s.t.blocks[r].blocked;
    }
  }

  lemma EndedFrom(degree: nat, k: S.Kernel, e: S.Event, pid: Pid, l: S.Kernel)
    requires S.Inv(degree, k) && k.finishing != {} && S.Next(k, e, l) && !e.Create? && !IsResourceCall(e)
    requires pid in k.live && l.live == k.live - {pid}
    ensures forall r :: pid !in S.In(k, S.Blocked(r))
  {
    forall r ensures pid !in S.In(k, S.Blocked(r)) {
      BlockedUntouched(k, e, l, r);
      EndedElsewhere(degree, k, e, l, pid, r);
    }
  }

  lemma BlockedIsElsewhere(degree: nat, totals: map<string, nat>, s: State, x: Pid)
    requires Inv(degree, totals, s) && R.IsBlocked(s.t, x)
    ensures x in s.k.live && forall p: S.Place :: !p.Blocked? ==> x !in S.In(s.k, p)
  {
    var r :| r in s.t.blocks && x in s.t.blocks[r].blocked;
    assert x in S.In(s.k, S.Blocked(r));
  }

  lemma TargetTaken(k: S.Kernel, step: S.Event, l: S.Kernel, x: Pid)
    requires S.Next(k, step, l) && S.FinishHitsTarget(k) && x in k.finishing
    ensures step.FinishByHand? ==> x in S.In(k, S.Exec)
  {
    S.OnlyElement(k.finishing, x);
  }

  /** The console takes only its target out of EXEC, and a target that is blocked is not there. */
  lemma BlockedTargetStays(degree: nat, totals: map<string, nat>, s: State, x: Pid, e: Event, u: State)
    requires Waiting(degree, totals, s) && x in s.k.finishing && R.IsBlocked(s.t, x) && Next(s, e, u)
    ensures !IsFinish(e)
  {
    BlockedIsElsewhere(degree, totals, s, x);
    if e.Plain? || e.Ends? {
      TargetTaken(s.k, e.step, u.k, x);
    }
  }

  lemma MembersStay(degree: nat, totals: map<string, nat>, s: State, e: Event, u: State, d: set<Pid>)
    requires Waiting(degree, totals, s) && D.Deadlocked(s.t, d) && Next(s, e, u)
    ensures e.Ends? ==> e.pid !in d
  {
    if e.Ends? {
      BlockedDoNotEnd(degree, totals, s, e.step, e.pid, u);
      D.NotAMember(s.t, d, e.pid);
    }
  }

  lemma DeadlockedStep(degree: nat, totals: map<string, nat>, s: State, e: Event, u: State)
    requires Waiting(degree, totals, s) && TargetDeadlocked(s) && Next(s, e, u)
    ensures !IsFinish(e) && TargetDeadlocked(u)
  {
    var x :| x in s.k.finishing && D.InDeadlock(s.t, x);
    var d :| x in d && D.Deadlocked(s.t, d);
    D.MembersAreBlocked(s.t, d, x);
    BlockedTargetStays(degree, totals, s, x, e, u);
    MembersStay(degree, totals, s, e, u, d);
    DeadlockStep(degree, totals, s, e, u, d);
    WaitingStep(degree, totals, s, e, u);
    assert D.InDeadlock(u.t, x);
  }

  /** Whoever may run or will end may do so only because he could before. */
  lemma StillForgotten(s: State, u: State)
    requires Forgotten(s) && u.t.posts == 0 && u.k.live <= s.k.live && u.k.marked == s.k.marked
    requires forall p, y :: y in S.In(u.k, p) ==> y in S.In(s.k, p)
    requires forall y :: R.HeldBy(u.t, y) <= R.HeldBy(s.t, y)
    requires S.In(u.k, S.New) != [] ==> S.In(s.k, S.New) != [] && u.k.grd == s.k.grd
    ensures Forgotten(u)
  {
    forall y | y in u.k.live && WillEnd(u.k, y) ensures R.HeldBy(u.t, y) == {} {
      assert WillEnd(s.k, y);
    }
    forall y | y in u.k.live ensures !MayRun(u.k, y) {
      assert !MayRun(s.k, y);
    }
  }

  lemma NobodyIn(degree: nat, s: State, p: S.Place)
    requires S.Inv(degree, s.k) && Forgotten(s)
    requires p == S.Exec || p == S.Ready || p == S.Fault || p == S.FileWait || p == S.FileCall
    ensures S.In(s.k, p) == []
  {
    var queue := S.In(s.k, p);
    assert queue != [] ==> queue[0] in queue;
    assert queue != [] ==> queue[0] in s.k.live && MayRun(s.k, queue[0]);
  }

  lemma NobodyRuns(degree: nat, s: State)
    requires S.Inv(degree, s.k) && Forgotten(s)
    ensures S.In(s.k, S.Exec) == [] && S.In(s.k, S.Ready) == []
    ensures S.In(s.k, S.Fault) == [] && S.In(s.k, S.FileWait) == [] && S.In(s.k, S.FileCall) == []
    ensures forall p, y :: (p == S.Sleep || p == S.Interrupt) && y in S.In(s.k, p) ==> y in s.k.marked
  {
    NobodyIn(degree, s, S.Exec);
    NobodyIn(degree, s, S.Ready);
    NobodyIn(degree, s, S.Fault);
    NobodyIn(degree, s, S.FileWait);
    NobodyIn(degree, s, S.FileCall);
    forall p, y | (p == S.Sleep || p == S.Interrupt) && y in S.In(s.k, p) ensures y in s.k.marked {
      assert y in s.k.live && !MayRun(s.k, y);
    }
  }

  /** The steps of the scheduler that are left change no list, or eliminate a process of EXIT or a marked one. */
  lemma QuietScheduler(degree: nat, totals: map<string, nat>, s: State, step: S.Event, l: S.Kernel)
    requires Waiting(degree, totals, s) && Forgotten(s)
    requires S.Next(s.k, step, l) && !step.Create? && !IsResourceCall(step)
    ensures !step.FinishByHand?
    ensures l.live <= s.k.live && l.marked == s.k.marked
    ensures forall p, y :: y in S.In(l, p) ==> y in S.In(s.k, p)
    ensures S.In(l, S.New) != [] ==> S.In(s.k, S.New) != [] && l.grd == s.k.grd
    ensures forall y :: y in s.k.live && y !in l.live ==> WillEnd(s.k, y)
  {
    NobodyRuns(degree, s);
    match step
    case Wake(p, y) => QuietWake(degree, s.k, p, y);
    case Drain => QuietDrain(s.k);
    case _ =>
  }

  lemma QuietWake(degree: nat, k: S.Kernel, p: S.Place, y: Pid)
    requires S.Inv(degree, k) && y in S.In(k, p) && (p == S.Sleep || p == S.Interrupt) && y in k.marked && !MayAdmit(k)
    ensures var l := S.Woken(k, p, y);
      && l.live == k.live - {y} && l.marked == k.marked && S.In(l, S.New) == [] && WillEnd(k, y)
      && (forall q, z :: z in S.In(l, q) ==> z in S.In(k, q))
  {
    assert y in k.live && MarkedAsleep(k, y);
    S.TakenKeeps(k.lists, k.live, p, y);
  }

  lemma QuietDrain(k: S.Kernel)
    requires k.exitPosts > 0
    ensures var l := S.Drained(k);
      && l.live <= k.live && l.marked == k.marked && l.grd == k.grd && S.In(l, S.New) == S.In(k, S.New)
      && (forall q, z :: z in S.In(l, q) ==> z in S.In(k, q))
      && (forall z :: z in k.live && z !in l.live ==> z in S.In(k, S.Exit))
  {
    forall q, z | z in S.In(S.Drained(k), q) ensures z in S.In(k, q) {
      if q == S.Exit && S.In(k, S.Exit) != [] {
        SubsetAfterRemoval(S.In(k, S.Exit), S.In(k, S.Exit)[0], z);
      }
    }
  }

  lemma ForgottenStep(degree: nat, totals: map<string, nat>, s: State, e: Event, u: State)
    requires Waiting(degree, totals, s) && Forgotten(s) && Next(s, e, u)
    ensures !IsFinish(e) && Forgotten(u)
  {
    NobodyRuns(degree, s);
    if e.Plain? {
      QuietScheduler(degree, totals, s, e.step, u.k);
      StillForgotten(s, u);
    } else {
      assert e.Ends?;
      QuietScheduler(degree, totals, s, e.step, u.k);
      assert WillEnd(s.k, e.pid);
      StillForgotten(s, u);
    }
  }

  ghost predicate WaitsInVain(degree: nat, totals: map<string, nat>, s: State) {
    Waiting(degree, totals, s) && Hopeless(s)
  }

  lemma HopelessStep(degree: nat, totals: map<string, nat>, s: State, e: Event, u: State)
    requires WaitsInVain(degree, totals, s) && Next(s, e, u)
    ensures !IsFinish(e) && WaitsInVain(degree, totals, u)
  {
    if M.OutOfReach(s.k) {
      OutOfReachStep(degree, totals, s, e, u);
    } else if TargetDeadlocked(s) {
      DeadlockedStep(degree, totals, s, e, u);
    } else {
      ForgottenStep(degree, totals, s, e, u);
    }
    WaitingStep(degree, totals, s, e, u);
  }

  lemma GoesOnFrom(s: State, events: seq<Event>, states: seq<State>)
    requires Continues(s, events, states) && events != []
    ensures Next(s, events[0], states[1]) && Continues(states[1], events[1..], states[1..])
  {
  }

  lemma NoFinish(events: seq<Event>)
    requires events != [] && !IsFinish(events[0]) && !Finishes(events[1..])
    ensures !Finishes(events)
  {
    forall i | 0 <= i < |events| ensures !IsFinish(events[i]) {
      if i > 0 {
        assert events[i] == events[1..][i - 1];
      }
    }
  }

  lemma {:induction false} NeverFinishes(degree: nat, totals: map<string, nat>, s: State, events: seq<Event>,
                                         states: seq<State>)
    requires WaitsInVain(degree, totals, s) && Continues(s, events, states)
    ensures !Finishes(events)
    decreases |events|
  {
    if events != [] {
      GoesOnFrom(s, events, states);
      HopelessStep(degree, totals, s, events[0], states[1]);
      NeverFinishes(degree, totals, states[1], events[1..], states[1..]);
      NoFinish(events);
    }
  }

  lemma HopelessIsLost(degree: nat, totals: map<string, nat>, s: State)
    requires WaitsInVain(degree, totals, s)
    ensures Lost(s)
  {
    forall events, states | Continues(s, events, states) ensures !Finishes(events) {
      NeverFinishes(degree, totals, s, events, states);
    }
  }

  // ----- otherwise there is a way

  lemma OneStepBefore(s: State, e: Event, u: State, events: seq<Event>, states: seq<State>)
    requires Next(s, e, u) && Continues(u, events, states)
    ensures Continues(s, [e] + events, [s] + states)
  {
  }

  lemma FinishesLater(e: Event, events: seq<Event>)
    requires Finishes(events)
    ensures Finishes([e] + events)
  {
    var i :| 0 <= i < |events| && IsFinish(events[i]);
    assert ([e] + events)[i + 1] == events[i];
  }

  lemma NotLostAfter(s: State, e: Event, u: State)
    requires Next(s, e, u) && !Lost(u)
    ensures !Lost(s)
  {
    var events: seq<Event>, states: seq<State> :| Continues(u, events, states) && Finishes(events);
    OneStepBefore(s, e, u, events, states);
    FinishesLater(e, events);
  }

  /** There is a way from s if there is one from u. */
  ghost predicate LeadsTo(s: State, u: State) {
    Lost(s) ==> Lost(u)
  }

  lemma StepLeads(s: State, e: Event, u: State)
    requires Next(s, e, u)
    ensures LeadsTo(s, u)
  {
    if !Lost(u) {
      NotLostAfter(s, e, u);
    }
  }

  /** The console waits for x, within reach of the scheduler. */
  ghost predicate Hope(degree: nat, totals: map<string, nat>, s: State, x: Pid) {
    Inv(degree, totals, s) && NewHoldNothing(s) && M.Hopeful(degree, s.k, x)
  }

  lemma HopeStep(degree: nat, totals: map<string, nat>, s: State, e: Event, u: State, x: Pid)
    requires Hope(degree, totals, s, x) && Next(s, e, u) && M.Hopeful(degree, u.k, x)
    ensures Hope(degree, totals, u, x) && LeadsTo(s, u)
  {
    NextKeeps(degree, totals, s, e, u);
    NewStep(degree, totals, s, e, u);
    StepLeads(s, e, u);
  }

  lemma PlainHope(degree: nat, totals: map<string, nat>, s: State, step: S.Event, l: S.Kernel, x: Pid)
    requires Hope(degree, totals, s, x) && S.Next(s.k, step, l) && !step.Create? && !IsResourceCall(step)
    requires l.live == s.k.live && M.Hopeful(degree, l, x)
    ensures Hope(degree, totals, State(l, s.t), x) && LeadsTo(s, State(l, s.t))
  {
    HopeStep(degree, totals, s, Plain(step), State(l, s.t), x);
  }

  /** x comes back with its interrupt, and the console takes it. */
  lemma Taken(degree: nat, totals: map<string, nat>, s: State, x: Pid)
    requires Hope(degree, totals, s, x) && x in S.In(s.k, S.Exec) && s.k.running
    ensures !Lost(s)
  {
    var k := S.Returned(s.k, S.InterruptFinish);
    var u := State(k, s.t);
    assert Next(s, Plain(S.Return(S.InterruptFinish)), u);
    var v := State(S.FinishedByHand(k), R.Remove(s.t, x));
    assert Next(u, Ends(S.FinishByHand, x), v);
    var events: seq<Event>, states: seq<State> := [Ends(S.FinishByHand, x)], [u, v];
    assert Continues(u, events, states) && IsFinish(events[0]);
    NotLostAfter(s, Plain(S.Return(S.InterruptFinish)), u);
  }

  // ----- bringing a process into the CPU

  /** Nobody takes x for y on the way. */
  predicate Apart(s: State, x: Pid, y: Pid) {
    y == x || R.IsBlocked(s.t, x)
  }

  lemma Sent(degree: nat, totals: map<string, nat>, s: State, x: Pid) returns (u: State)
    requires Hope(degree, totals, s, x) && S.In(s.k, S.Exec) != []
    ensures Hope(degree, totals, u, x) && u.t == s.t && LeadsTo(s, u)
    ensures u.k.running && u.k.lists == s.k.lists
  {
    if s.k.running {
      u := s;
    } else {
      M.SentIsHopeful(degree, s.k, x);
      u := State(S.Sent(s.k), s.t);
      PlainHope(degree, totals, s, S.Send, u.k, x);
    }
  }

  lemma Emptied(degree: nat, totals: map<string, nat>, s: State, x: Pid) returns (u: State)
    requires Hope(degree, totals, s, x) && x !in S.In(s.k, S.Exec)
    ensures Hope(degree, totals, u, x) && u.t == s.t && LeadsTo(s, u)
    ensures S.In(u.k, S.Exec) == [] && S.In(u.k, S.Ready) == S.In(s.k, S.Ready)
  {
    if S.In(s.k, S.Exec) == [] {
      u := s;
    } else {
      var v := Sent(degree, totals, s, x);
      M.OtherFaults(degree, v.k, x);
      u := State(S.Returned(v.k, S.PageFaulted), v.t);
      PlainHope(degree, totals, v, S.Return(S.PageFaulted), u.k, x);
    }
  }

  lemma NotInExec(degree: nat, totals: map<string, nat>, s: State, x: Pid, y: Pid)
    requires Hope(degree, totals, s, x) && Apart(s, x, y) && y in S.In(s.k, S.Ready)
    ensures x !in S.In(s.k, S.Exec)
  {
    if R.IsBlocked(s.t, x) {
      BlockedIsElsewhere(degree, totals, s, x);
    }
  }

  lemma {:induction false} ReadyUp(degree: nat, totals: map<string, nat>, s: State, x: Pid, y: Pid) returns (u: State)
    requires Hope(degree, totals, s, x) && Apart(s, x, y) && y in S.In(s.k, S.Ready)
    ensures Hope(degree, totals, u, x) && u.t == s.t && LeadsTo(s, u)
    ensures y in S.In(u.k, S.Exec) && u.k.running
    decreases |S.In(s.k, S.Ready)|
  {
    NotInExec(degree, totals, s, x, y);
    var v := Emptied(degree, totals, s, x);
    M.DispatchIsHopeful(degree, v.k, x, y, S.FifoOrder, map[]);
    var w := State(S.Dispatched(v.k, S.FifoOrder, map[]), v.t);
    DispatchKeepsLive(v.k);
    PlainHope(degree, totals, v, S.Dispatch(S.FifoOrder, map[]), w.k, x);
    if y in S.In(w.k, S.Exec) {
      u := Sent(degree, totals, w, x);
    } else {
      u := ReadyUp(degree, totals, w, x, y);
    }
  }

  lemma DispatchKeepsLive(k: S.Kernel)
    requires k.readyPosts > 0
    ensures S.Dispatched(k, S.FifoOrder, map[]).live == k.live
  {
  }

  /** Whoever may run can be brought into the CPU, and the table stays as it is. */
  lemma Up(degree: nat, totals: map<string, nat>, s: State, x: Pid, y: Pid) returns (u: State)
    requires Hope(degree, totals, s, x) && Apart(s, x, y) && MayRun(s.k, y)
    ensures Hope(degree, totals, u, x) && u.t == s.t && LeadsTo(s, u)
    ensures y in S.In(u.k, S.Exec) && u.k.running
  {
    if y in S.In(s.k, S.Exec) {
      u := Sent(degree, totals, s, x);
    } else if y in S.In(s.k, S.Ready) {
      u := ReadyUp(degree, totals, s, x, y);
    } else {
      var p: S.Place :| p in {S.Fault, S.FileWait, S.FileCall, S.Sleep, S.Interrupt} && y in S.In(s.k, p) &&
        (p == S.Sleep || p == S.Interrupt ==> y !in s.k.marked);
      M.WakeIsHopeful(degree, s.k, x, p, y);
      var v := State(S.Woken(s.k, p, y), s.t);
      PlainHope(degree, totals, s, S.Wake(p, y), v.k, x);
      u := ReadyUp(degree, totals, v, x, y);
    }
  }

  // ----- serving somebody

  /** No step but a WAIT that blocks puts a process into a deadlock. */
  lemma StaysFree(degree: nat, totals: map<string, nat>, s: State, e: Event, u: State, x: Pid)
    requires Inv(degree, totals, s) && Next(s, e, u) && !D.InDeadlock(s.t, x)
    requires e.Waits? ==> !IsExhausted(s.t, e.resource)
    ensures !D.InDeadlock(u.t, x)
  {
    if !e.Plain? {
      TableSteps(degree, totals, s, e, u);
      forall d | x in d ensures !D.Deadlocked(u.t, d) {
        if D.Deadlocked(u.t, d) && !D.Deadlocked(s.t, d) {
          D.NewDeadlockIsReported(totals, s.t, TableEvent(s, e), u.t, d);
        }
      }
    }
  }

  /** A post is there, and somebody waits in front of a free instance. */
  predicate Ripe(t: R.Table) {
    t.posts > 0 && exists r :: r in t.blocks && IsServed(t, r)
  }

  lemma {:induction false} OrderOf(rs: set<string>) returns (order: seq<string>)
    ensures NoDuplicates(order) && forall r :: r in order <==> r in rs
  {
    if rs == {} {
      order := [];
    } else {
      var r :| r in rs;
      var rest := OrderOf(rs - {r});
      order := [r] + rest;
      assert forall q :: q in order <==> q == r || q in rest;
    }
  }

  lemma ListsShrink(t: R.Table, p: Pid)
    requires t.posts > 0 && R.IsBlocked(R.Unblock(t), p)
    ensures R.IsBlocked(t, p)
  {
    var r :| r in R.Unblock(t).blocks && p in R.Unblock(t).blocks[r].blocked;
    assert p in t.blocks[r].blocked;
  }

  /** After a turn of unblock_processes fewer are blocked, and the head of a served list is not. */
  lemma FewerBlocked(totals: map<string, nat>, t: R.Table, r: string)
    requires R.Inv(totals, t) && t.posts > 0 && r in t.blocks && IsServed(t, r)
    ensures var y := t.blocks[r].blocked[0];
      && y in t.live && R.IsBlocked(t, y) && !R.IsBlocked(R.Unblock(t), y)
      && |D.AllBlocked(R.Unblock(t))| < |D.AllBlocked(t)|
  {
    var y, u := t.blocks[r].blocked[0], R.Unblock(t);
    assert y in t.blocks[r].blocked;
    assert R.Served(t.blocks[r]) != t.blocks[r];
    D.ServedIsNotBlocked(totals, t, r);
    D.AllBlockedAre(t, y);
    forall p | p in D.AllBlocked(u) ensures p in D.AllBlocked(t) - {y} {
      D.AllBlockedAre(u, p);
      ListsShrink(t, p);
      D.AllBlockedAre(t, p);
    }
    SubsetCount(D.AllBlocked(u), D.AllBlocked(t) - {y});
    assert |D.AllBlocked(t) - {y}| == |D.AllBlocked(t)| - 1;
  }

  lemma SubsetCount<T>(a: set<T>, b: set<T>)
    requires a <= b
    ensures |a| <= |b|
  {
    assert b == a + (b - a);
  }

  lemma HopefulAfterWaking(degree: nat, k: S.Kernel, order: seq<string>, x: Pid)
    requires M.Hopeful(degree, k, x) && S.Inv(degree, WokenAll(k, order))
    ensures M.Hopeful(degree, WokenAll(k, order), x)
  {
    WokenElsewhere(k, order);
  }

  lemma UnblockStep(degree: nat, totals: map<string, nat>, s: State, x: Pid) returns (u: State)
    requires Hope(degree, totals, s, x) && s.t.posts > 0 && !D.InDeadlock(s.t, x)
    ensures Hope(degree, totals, u, x) && LeadsTo(s, u) && u.t == R.Unblock(s.t) && !D.InDeadlock(u.t, x)
    ensures u.k.live == s.k.live && u.k.marked == s.k.marked
    ensures forall p: S.Place :: p != S.Ready && !p.Blocked? ==> S.In(u.k, p) == S.In(s.k, p)
  {
    var order := OrderOf(set r | r in s.t.blocks && IsServed(s.t, r));
    u := State(WokenAll(s.k, order), R.Unblock(s.t));
    assert Next(s, Unblocks(order), u);
    NextKeeps(degree, totals, s, Unblocks(order), u);
    WokenElsewhere(s.k, order);
    HopefulAfterWaking(degree, s.k, order, x);
    HopeStep(degree, totals, s, Unblocks(order), u, x);
    StaysFree(degree, totals, s, Unblocks(order), u, x);
  }

  lemma InListIsBlocked(s: State, r: string, y: Pid)
    requires Linked(s)
    ensures y in S.In(s.k, S.Blocked(r)) ==> R.IsBlocked(s.t, y)
  {
  }

  /** Whoever is alive, and neither blocked nor new, may run or will end. */
  lemma MayRunOrWillEnd(degree: nat, totals: map<string, nat>, s: State, y: Pid)
    requires Inv(degree, totals, s) && y in s.k.live && !R.IsBlocked(s.t, y) && y !in S.In(s.k, S.New)
    ensures MayRun(s.k, y) || WillEnd(s.k, y)
  {
    assert S.IsSomewhere(s.k.lists, y);
    var p :| y in S.At(s.k.lists, p);
    forall r ensures y !in S.In(s.k, S.Blocked(r)) {
      InListIsBlocked(s, r, y);
    }
  }

  lemma NotEnding(degree: nat, totals: map<string, nat>, s: State, l: S.Kernel, y: Pid)
    requires Inv(degree, totals, s) && R.IsBlocked(s.t, y)
    requires forall p: S.Place :: p != S.Ready && !p.Blocked? ==> S.In(l, p) == S.In(s.k, p)
    ensures y in s.k.live && y !in S.In(l, S.New) && !WillEnd(l, y)
  {
    BlockedIsElsewhere(degree, totals, s, y);
  }

  /** Fewer are blocked, and somebody may run. */
  lemma Serve(degree: nat, totals: map<string, nat>, s: State, x: Pid) returns (u: State, y: Pid)
    requires Hope(degree, totals, s, x) && Ripe(s.t) && !D.InDeadlock(s.t, x)
    ensures Hope(degree, totals, u, x) && LeadsTo(s, u) && !D.InDeadlock(u.t, x)
    ensures |D.AllBlocked(u.t)| < |D.AllBlocked(s.t)| && y in u.k.live && MayRun(u.k, y)
  {
    var r :| r in s.t.blocks && IsServed(s.t, r);
    y := s.t.blocks[r].blocked[0];
    FewerBlocked(totals, s.t, r);
    u := UnblockStep(degree, totals, s, x);
    NotEnding(degree, totals, s, u.k, y);
    MayRunOrWillEnd(degree, totals, u, y);
  }

  // ----- SIGNAL and WAIT of a process in the CPU

  lemma Alone(degree: nat, k: S.Kernel, y: Pid)
    requires S.Inv(degree, k) && y in S.In(k, S.Exec)
    ensures S.In(k, S.Exec) == [y]
  {
  }

  lemma CallHope(degree: nat, totals: map<string, nat>, s: State, e: Event, reason: S.Reason, t: R.Table, x: Pid)
    returns (u: State)
    requires Hope(degree, totals, s, x) && !D.InDeadlock(s.t, x) && s.k.running && S.In(s.k, S.Exec) != []
    requires S.OutcomeOf(reason).GoesOn? && !reason.InterruptFinish?
    requires Next(s, e, State(S.Returned(s.k, reason), t)) && (e.Waits? ==> !IsExhausted(s.t, e.resource))
    ensures Hope(degree, totals, u, x) && LeadsTo(s, u) && !D.InDeadlock(u.t, x) && u.k.lists == s.k.lists && u.t == t
  {
    u := State(S.Returned(s.k, reason), t);
    GoesOn(degree, s.k, reason, x);
    HopeStep(degree, totals, s, e, u, x);
    StaysFree(degree, totals, s, e, u, x);
  }

  lemma SignalNext(s: State, y: Pid, r: string)
    requires S.In(s.k, S.Exec) == [y] && s.k.running && r in s.t.blocks && y in s.t.blocks[r].pids
    ensures S.OutcomeOf(SignalReason(s.t, y, r)).GoesOn?
    ensures Next(s, Signals(r), State(S.Returned(s.k, SignalReason(s.t, y, r)), R.Signal(s.t, y, r)))
  {
  }

  lemma WaitNext(s: State, y: Pid, r: string)
    requires S.In(s.k, S.Exec) == [y] && s.k.running && r in s.t.blocks && s.t.blocks[r].instances > 0
    ensures S.OutcomeOf(WaitReason(s.t, r)).GoesOn? && !IsExhausted(s.t, r)
    ensures Next(s, Waits(r), State(S.Returned(s.k, WaitReason(s.t, r)), R.Wait(s.t, y, r)))
  {
  }

  lemma SignalUp(degree: nat, totals: map<string, nat>, s: State, x: Pid, y: Pid, r: string) returns (u: State)
    requires Hope(degree, totals, s, x) && y in S.In(s.k, S.Exec) && s.k.running && !D.InDeadlock(s.t, x)
    requires r in s.t.blocks && y in s.t.blocks[r].pids
    ensures Hope(degree, totals, u, x) && LeadsTo(s, u) && u.t == R.Signal(s.t, y, r) && !D.InDeadlock(u.t, x)
  {
    Alone(degree, s.k, y);
    SignalNext(s, y, r);
    u := CallHope(degree, totals, s, Signals(r), SignalReason(s.t, y, r), R.Signal(s.t, y, r), x);
  }

  lemma WaitUp(degree: nat, totals: map<string, nat>, s: State, x: Pid, y: Pid, r: string) returns (u: State)
    requires Hope(degree, totals, s, x) && y in S.In(s.k, S.Exec) && s.k.running && !D.InDeadlock(s.t, x)
    requires r in s.t.blocks && s.t.blocks[r].instances > 0
    ensures Hope(degree, totals, u, x) && LeadsTo(s, u) && u.t == R.Wait(s.t, y, r) && !D.InDeadlock(u.t, x)
    ensures u.k.lists == s.k.lists
  {
    Alone(degree, s.k, y);
    WaitNext(s, y, r);
    u := CallHope(degree, totals, s, Waits(r), WaitReason(s.t, r), R.Wait(s.t, y, r), x);
  }

  /** The process stays in EXEC after its call. */
  lemma GoesOn(degree: nat, k: S.Kernel, reason: S.Reason, x: Pid)
    requires M.Hopeful(degree, k, x) && k.running && S.In(k, S.Exec) != []
    requires S.OutcomeOf(reason).GoesOn? && !reason.InterruptFinish?
    ensures M.Hopeful(degree, S.Returned(k, reason), x) && S.Returned(k, reason).lists == k.lists
  {
    var l := S.Returned(k, reason);
    S.NextKeeps(degree, k, S.Return(reason), l);
    assert M.TargetUnmarked(k, x);
  }

  lemma SameLists(t: R.Table, u: R.Table)
    requires u.blocks.Keys == t.blocks.Keys && forall r :: r in t.blocks ==> u.blocks[r].blocked == t.blocks[r].blocked
    ensures D.AllBlocked(u) == D.AllBlocked(t)
    ensures forall p :: R.IsBlocked(u, p) <==> R.IsBlocked(t, p)
  {
    forall p ensures p in D.AllBlocked(u) <==> p in D.AllBlocked(t)
      ensures R.IsBlocked(u, p) <==> R.IsBlocked(t, p)
    {
      D.AllBlockedAre(t, p);
      D.AllBlockedAre(u, p);
    }
  }

  lemma SignalRipens(t: R.Table, y: Pid, r: string)
    requires r in t.blocks && y in t.blocks[r].pids && t.blocks[r].blocked != [] && t.blocks[r].instances >= 0
    ensures Ripe(R.Signal(t, y, r)) && |D.AllBlocked(R.Signal(t, y, r))| == |D.AllBlocked(t)|
  {
    SameLists(t, R.Signal(t, y, r));
    assert IsServed(R.Signal(t, y, r), r);
  }

  /** A holder that may run gives an instance to the list that waits for it. */
  lemma HolderServes(degree: nat, totals: map<string, nat>, s: State, x: Pid, h: Pid, r: string)
    returns (u: State, y: Pid)
    requires Hope(degree, totals, s, x) && Apart(s, x, h) && MayRun(s.k, h) && !D.InDeadlock(s.t, x)
    requires r in s.t.blocks && h in s.t.blocks[r].pids && s.t.blocks[r].blocked != []
    ensures Hope(degree, totals, u, x) && LeadsTo(s, u) && !D.InDeadlock(u.t, x)
    ensures |D.AllBlocked(u.t)| < |D.AllBlocked(s.t)| && y in u.k.live && MayRun(u.k, y)
  {
    var v := Up(degree, totals, s, x, h);
    var w := SignalUp(degree, totals, v, x, h, r);
    assert R.Conserved(totals[r], s.t.blocks[r]);
    SignalRipens(s.t, h, r);
    u, y := Serve(degree, totals, w, x);
  }

  /** Any process that may run takes and gives back a free instance, which wakes those who wait in front of it. */
  lemma RunnerServes(degree: nat, totals: map<string, nat>, s: State, x: Pid, z: Pid, r: string)
    returns (u: State, y: Pid)
    requires Hope(degree, totals, s, x) && Apart(s, x, z) && MayRun(s.k, z) && !D.InDeadlock(s.t, x)
    requires r in s.t.blocks && s.t.blocks[r].instances > 0 && s.t.blocks[r].blocked != []
    ensures Hope(degree, totals, u, x) && LeadsTo(s, u) && !D.InDeadlock(u.t, x)
    ensures |D.AllBlocked(u.t)| < |D.AllBlocked(s.t)| && y in u.k.live && MayRun(u.k, y)
  {
    var v := Up(degree, totals, s, x, z);
    var w := WaitUp(degree, totals, v, x, z, r);
    TakenInstance(s.t, z, r);
    u, y := HolderServes(degree, totals, w, x, z, r);
  }

  lemma TakenInstance(t: R.Table, z: Pid, r: string)
    requires r in t.blocks && t.blocks[r].instances > 0
    ensures var u := R.Wait(t, z, r);
      && z in u.blocks[r].pids && u.blocks[r].blocked == t.blocks[r].blocked && D.AllBlocked(u) == D.AllBlocked(t)
      && (forall p :: R.IsBlocked(u, p) <==> R.IsBlocked(t, p))
  {
    SameLists(t, R.Wait(t, z, r));
  }

  // ----- one step nearer

  ghost predicate Smaller(u: State, s: State) {
    || |D.AllBlocked(u.t)| < |D.AllBlocked(s.t)|
    || (|D.AllBlocked(u.t)| <= |D.AllBlocked(s.t)| &&
        (|u.k.live| < |s.k.live| ||
         (|u.k.live| == |s.k.live| && |S.In(u.k, S.New)| < |S.In(s.k, S.New)|)))
  }

  /** x waits for a resource, is in no deadlock, and is not forgotten. */
  ghost predicate Pending(degree: nat, totals: map<string, nat>, s: State, x: Pid) {
    Hope(degree, totals, s, x) && !D.InDeadlock(s.t, x) && !Forgotten(s)
  }

  /** Somebody waits in front of a free instance, or for an instance of a process that waits for none. */
  lemma {:induction false} Frontier(totals: map<string, nat>, t: R.Table, x: Pid, n: nat) returns (r: string, h: Pid)
    requires R.Inv(totals, t) && R.IsBlocked(t, x) && D.LeadsOut(t, x, n)
    ensures r in t.blocks && t.blocks[r].blocked != []
    ensures t.blocks[r].instances > 0 || (h in t.blocks[r].pids && !R.IsBlocked(t, h))
    decreases n
  {
    h := x;
    if n == 0 {
      r :| r in t.blocks && x in t.blocks[r].blocked;
      assert R.Conserved(totals[r], t.blocks[r]);
    } else {
      r, h :| r in t.blocks && x in t.blocks[r].blocked && h in t.blocks[r].pids && D.LeadsOut(t, h, n - 1);
      if R.IsBlocked(t, h) {
        r, h := Frontier(totals, t, h, n - 1);
      }
    }
  }

  lemma FrontierOf(totals: map<string, nat>, t: R.Table, x: Pid) returns (r: string, h: Pid)
    requires R.Inv(totals, t) && R.IsBlocked(t, x) && !D.InDeadlock(t, x)
    ensures r in t.blocks && t.blocks[r].blocked != []
    ensures t.blocks[r].instances > 0 || (h in t.blocks[r].pids && !R.IsBlocked(t, h))
  {
    D.InDeadlockIffNoWayOut(totals, t, x);
    var n: nat :| D.LeadsOut(t, x, n);
    r, h := Frontier(totals, t, x, n);
  }

  // ----- eliminating somebody

  lemma RemoveBlocks(totals: map<string, nat>, t: R.Table, z: Pid)
    requires R.Inv(totals, t)
    ensures |D.AllBlocked(R.Remove(t, z))| <= |D.AllBlocked(t)|
    ensures R.HeldBy(t, z) != {} ==> R.Remove(t, z).posts > 0
    ensures forall y :: y != z ==> R.HeldBy(R.Remove(t, z), y) == R.HeldBy(t, y)
  {
    var u := R.Remove(t, z);
    forall p | p in D.AllBlocked(u) ensures p in D.AllBlocked(t) {
      D.AllBlockedAre(u, p);
      var r :| r in u.blocks && p in u.blocks[r].blocked;
      SubsetAfterRemoval(t.blocks[r].blocked, z, p);
      D.AllBlockedAre(t, p);
    }
    SubsetCount(D.AllBlocked(u), D.AllBlocked(t));
    if R.HeldBy(t, z) != {} {
      assert |R.HeldBy(t, z)| > 0;
    }
  }

  /** The process w is eliminated, and nobody else changes place. */
  ghost predicate Eliminated(s: State, u: State, w: Pid) {
    && w in s.k.live && WillEnd(s.k, w) && u.k.live == s.k.live - {w} && u.k.marked == s.k.marked
    && u.t == R.Remove(s.t, w)
    && (forall p, y :: y != w ==> (y in S.In(u.k, p) <==> y in S.In(s.k, p)))
    && S.In(u.k, S.New) == S.In(s.k, S.New)
  }

  lemma EndNext(s: State, step: S.Event, w: Pid, l: S.Kernel)
    requires S.Next(s.k, step, l) && !step.Create? && !IsResourceCall(step)
    requires w in s.k.live && l.live == s.k.live - {w}
    ensures Next(s, Ends(step, w), State(l, R.Remove(s.t, w)))
  {
  }

  lemma EndHope(degree: nat, totals: map<string, nat>, s: State, step: S.Event, w: Pid, l: S.Kernel, x: Pid)
    returns (u: State)
    requires Hope(degree, totals, s, x) && !D.InDeadlock(s.t, x)
    requires S.Next(s.k, step, l) && !step.Create? && !IsResourceCall(step)
    requires w in s.k.live && l.live == s.k.live - {w} && M.Hopeful(degree, l, x)
    ensures Hope(degree, totals, u, x) && LeadsTo(s, u) && !D.InDeadlock(u.t, x)
    ensures u == State(l, R.Remove(s.t, w))
  {
    u := State(l, R.Remove(s.t, w));
    EndNext(s, step, w, l);
    HopeStep(degree, totals, s, Ends(step, w), u, x);
    StaysFree(degree, totals, s, Ends(step, w), u, x);
  }

  lemma DrainedIsHopeful(degree: nat, k: S.Kernel, x: Pid)
    requires M.Hopeful(degree, k, x) && S.In(k, S.Exit) != []
    ensures k.exitPosts > 0
    ensures var l, w := S.Drained(k), S.In(k, S.Exit)[0];
      && M.Hopeful(degree, l, x) && w in k.live && w != x && l.live == k.live - {w} && l.marked == k.marked
      && (forall p, y :: y != w ==> (y in S.In(l, p) <==> y in S.In(k, p)))
      && S.In(l, S.New) == S.In(k, S.New) && l.grd == k.grd
  {
    var l, w := S.Drained(k), S.In(k, S.Exit)[0];
    assert w in S.In(k, S.Exit);
    S.NextKeeps(degree, k, S.Drain, l);
    S.AbandonedIff(degree, k, S.Drain, l);
    S.TakenKeeps(k.lists, k.live, S.Exit, w);
    assert M.TargetUnmarked(k, x);
  }

  lemma Drain(degree: nat, totals: map<string, nat>, s: State, x: Pid) returns (u: State, w: Pid)
    requires Hope(degree, totals, s, x) && !D.InDeadlock(s.t, x) && S.In(s.k, S.Exit) != []
    ensures Hope(degree, totals, u, x) && LeadsTo(s, u) && !D.InDeadlock(u.t, x)
    ensures Eliminated(s, u, w) && w != x
  {
    w := S.In(s.k, S.Exit)[0];
    DrainedIsHopeful(degree, s.k, x);
    assert w in S.In(s.k, S.Exit);
    u := EndHope(degree, totals, s, S.Drain, w, S.Drained(s.k), x);
  }

  lemma MarkedIsHopeful(degree: nat, k: S.Kernel, x: Pid, p: S.Place, w: Pid)
    requires M.Hopeful(degree, k, x) && (p == S.Sleep || p == S.Interrupt) && w in S.In(k, p) && w in k.marked
    ensures var l := S.Woken(k, p, w);
      && M.Hopeful(degree, l, x) && w in k.live && w != x && l.live == k.live - {w} && l.marked == k.marked
      && (forall q, y :: y != w ==> (y in S.In(l, q) <==> y in S.In(k, q)))
      && S.In(l, S.New) == S.In(k, S.New) && l.grd == k.grd + 1
  {
    var l := S.Woken(k, p, w);
    assert M.TargetUnmarked(k, x);
    S.WakeKeeps(degree, k, p, w);
    S.WakeElsewhere(k, p, w);
    S.TakenKeeps(k.lists, k.live, p, w);
  }

  lemma EndMarked(degree: nat, totals: map<string, nat>, s: State, x: Pid, w: Pid) returns (u: State)
    requires Hope(degree, totals, s, x) && !D.InDeadlock(s.t, x) && MarkedAsleep(s.k, w)
    ensures Hope(degree, totals, u, x) && LeadsTo(s, u) && !D.InDeadlock(u.t, x)
    ensures Eliminated(s, u, w) && w != x && u.k.grd > 0
  {
    var p := if w in S.In(s.k, S.Sleep) then S.Sleep else S.Interrupt;
    MarkedIsHopeful(degree, s.k, x, p, w);
    u := EndHope(degree, totals, s, S.Wake(p, w), w, S.Woken(s.k, p, w), x);
  }

  /** Somebody who will end is eliminated: z, or one in EXIT in front of it. */
  lemma EndOne(degree: nat, totals: map<string, nat>, s: State, x: Pid, z: Pid) returns (u: State, w: Pid)
    requires Hope(degree, totals, s, x) && !D.InDeadlock(s.t, x) && WillEnd(s.k, z)
    ensures Hope(degree, totals, u, x) && LeadsTo(s, u) && !D.InDeadlock(u.t, x)
    ensures Eliminated(s, u, w) && w != x
  {
    if MarkedAsleep(s.k, z) {
      w := z;
      u := EndMarked(degree, totals, s, x, z);
    } else {
      u, w := Drain(degree, totals, s, x);
    }
  }

  lemma EliminatedIsSmaller(degree: nat, totals: map<string, nat>, s: State, u: State, w: Pid)
    requires Inv(degree, totals, s) && Eliminated(s, u, w)
    ensures Smaller(u, s)
  {
    RemoveBlocks(totals, s.t, w);
    assert |s.k.live - {w}| == |s.k.live| - 1;
  }

  lemma RunsOn(s: State, u: State, w: Pid, y: Pid)
    requires Eliminated(s, u, w) && y in s.k.live && MayRun(s.k, y) && !WillEnd(s.k, y)
    ensures y in u.k.live && MayRun(u.k, y)
  {
  }

  lemma EndsOn(s: State, u: State, w: Pid, z: Pid)
    requires Eliminated(s, u, w) && z in s.k.live && WillEnd(s.k, z) && z != w
    ensures z in u.k.live && WillEnd(u.k, z)
  {
  }

  // ----- admitting somebody

  lemma AdmissionIsHopeful(degree: nat, k: S.Kernel, x: Pid)
    requires M.Hopeful(degree, k, x) && S.In(k, S.New) != [] && !k.admitting
    ensures k.newPosts > 0 && M.Hopeful(degree, S.AdmissionStarted(k), x)
  {
    S.NextKeeps(degree, k, S.StartAdmission, S.AdmissionStarted(k));
    assert M.TargetUnmarked(k, x);
  }

  lemma AdmittedIsHopeful(degree: nat, k: S.Kernel, x: Pid)
    requires M.Hopeful(degree, k, x) && S.In(k, S.New) != [] && k.admitting && k.grd > 0
    ensures var l, y := S.Admitted(k), S.In(k, S.New)[0];
      && M.Hopeful(degree, l, x) && l.live == k.live && |S.In(l, S.New)| < |S.In(k, S.New)|
      && y in l.live && y in S.In(l, S.Ready)
  {
    var l, y := S.Admitted(k), S.In(k, S.New)[0];
    assert y in S.In(k, S.New);
    S.NextKeeps(degree, k, S.Admit, l);
    S.AdmitMoves(degree, k);
    S.MovedKeeps(k.lists, k.live, S.New, S.Ready, y);
    S.AbandonedIff(degree, k, S.Admit, l);
    assert M.TargetUnmarked(k, x);
  }

  lemma Admission(degree: nat, totals: map<string, nat>, s: State, x: Pid) returns (u: State)
    requires Hope(degree, totals, s, x) && S.In(s.k, S.New) != []
    ensures Hope(degree, totals, u, x) && LeadsTo(s, u) && u.t == s.t
    ensures u.k.admitting && u.k.grd == s.k.grd && u.k.lists == s.k.lists && u.k.live == s.k.live
  {
    if s.k.admitting {
      u := s;
    } else {
      AdmissionIsHopeful(degree, s.k, x);
      u := State(S.AdmissionStarted(s.k), s.t);
      PlainHope(degree, totals, s, S.StartAdmission, u.k, x);
    }
  }

  /** The head of NEW finds a place, and may run. */
  lemma Admit(degree: nat, totals: map<string, nat>, s: State, x: Pid) returns (u: State, y: Pid)
    requires Hope(degree, totals, s, x) && S.In(s.k, S.New) != [] && s.k.grd > 0
    ensures Hope(degree, totals, u, x) && LeadsTo(s, u) && u.t == s.t
    ensures u.k.live == s.k.live && |S.In(u.k, S.New)| < |S.In(s.k, S.New)| && y in u.k.live && MayRun(u.k, y)
  {
    var v := Admission(degree, totals, s, x);
    y := S.In(v.k, S.New)[0];
    AdmittedIsHopeful(degree, v.k, x);
    u := State(S.Admitted(v.k), v.t);
    PlainHope(degree, totals, v, S.Admit, u.k, x);
  }

  // ----- whoever is not lost gets out

  lemma NotNew(degree: nat, totals: map<string, nat>, s: State, r: string, h: Pid)
    requires Inv(degree, totals, s) && NewHoldNothing(s) && r in s.t.blocks && h in s.t.blocks[r].pids
    ensures h in s.k.live && h !in S.In(s.k, S.New) && R.HeldBy(s.t, h) != {}
  {
    assert r in R.HeldBy(s.t, h);
  }

  lemma RunnerIsNoEnd(degree: nat, s: State, y: Pid)
    requires S.Inv(degree, s.k) && MayRun(s.k, y)
    ensures !WillEnd(s.k, y)
  {
  }

  lemma AWitnessRuns(s: State, y: Pid)
    requires y in s.k.live && MayRun(s.k, y)
    ensures !Forgotten(s)
  {
  }

  lemma AWitnessEnds(s: State, z: Pid)
    requires z in s.k.live && WillEnd(s.k, z) && R.HeldBy(s.t, z) != {}
    ensures !Forgotten(s)
  {
  }

  /** While somebody may run, fewer can be made to wait, or fewer to live. */
  lemma NearerWithRunner(degree: nat, totals: map<string, nat>, s: State, x: Pid, y: Pid) returns (u: State)
    requires Hope(degree, totals, s, x) && !D.InDeadlock(s.t, x) && R.IsBlocked(s.t, x)
    requires y in s.k.live && MayRun(s.k, y)
    ensures Hope(degree, totals, u, x) && LeadsTo(s, u) && !D.InDeadlock(u.t, x)
    ensures !Forgotten(u) && Smaller(u, s)
  {
    var r, h := FrontierOf(totals, s.t, x);
    if s.t.blocks[r].instances > 0 {
      var z;
      u, z := RunnerServes(degree, totals, s, x, y, r);
    } else {
      NotNew(degree, totals, s, r, h);
      MayRunOrWillEnd(degree, totals, s, h);
      if MayRun(s.k, h) {
        var z;
        u, z := HolderServes(degree, totals, s, x, h, r);
      } else {
        u := EndBesideRunner(degree, totals, s, x, y, h);
      }
    }
  }

  lemma EndBesideRunner(degree: nat, totals: map<string, nat>, s: State, x: Pid, y: Pid, h: Pid) returns (u: State)
    requires Hope(degree, totals, s, x) && !D.InDeadlock(s.t, x)
    requires y in s.k.live && MayRun(s.k, y) && WillEnd(s.k, h)
    ensures Hope(degree, totals, u, x) && LeadsTo(s, u) && !D.InDeadlock(u.t, x)
    ensures !Forgotten(u) && Smaller(u, s)
  {
    var w;
    u, w := EndOne(degree, totals, s, x, h);
    EliminatedIsSmaller(degree, totals, s, u, w);
    RunnerIsNoEnd(degree, s, y);
    RunsOn(s, u, w, y);
    AWitnessRuns(u, y);
  }

  /** One who will end holds something: it is given back, or he is still there. */
  lemma EndHolder(degree: nat, totals: map<string, nat>, s: State, x: Pid, z: Pid) returns (u: State)
    requires Hope(degree, totals, s, x) && !D.InDeadlock(s.t, x)
    requires z in s.k.live && WillEnd(s.k, z) && R.HeldBy(s.t, z) != {}
    ensures Hope(degree, totals, u, x) && LeadsTo(s, u) && !D.InDeadlock(u.t, x)
    ensures !Forgotten(u) && Smaller(u, s)
  {
    var w;
    u, w := EndOne(degree, totals, s, x, z);
    EliminatedIsSmaller(degree, totals, s, u, w);
    RemoveBlocks(totals, s.t, w);
    if w != z {
      EndsOn(s, u, w, z);
      AWitnessEnds(u, z);
    }
  }

  lemma AdmitNearer(degree: nat, totals: map<string, nat>, s: State, x: Pid) returns (u: State)
    requires Hope(degree, totals, s, x) && !D.InDeadlock(s.t, x) && S.In(s.k, S.New) != [] && s.k.grd > 0
    ensures Hope(degree, totals, u, x) && LeadsTo(s, u) && !D.InDeadlock(u.t, x)
    ensures !Forgotten(u) && Smaller(u, s)
  {
    var y;
    u, y := Admit(degree, totals, s, x);
    AWitnessRuns(u, y);
  }

  lemma MakeRoom(degree: nat, totals: map<string, nat>, s: State, x: Pid, w: Pid) returns (u: State)
    requires Hope(degree, totals, s, x) && !D.InDeadlock(s.t, x) && S.In(s.k, S.New) != [] && MarkedAsleep(s.k, w)
    ensures Hope(degree, totals, u, x) && LeadsTo(s, u) && !D.InDeadlock(u.t, x)
    ensures !Forgotten(u) && Smaller(u, s)
  {
    u := EndMarked(degree, totals, s, x, w);
    EliminatedIsSmaller(degree, totals, s, u, w);
    assert MayAdmit(u.k);
  }

  /** The holder that x hangs on, when nobody may run, is one that will end. */
  lemma HolderWillEnd(degree: nat, totals: map<string, nat>, s: State, x: Pid)
    requires Inv(degree, totals, s) && NewHoldNothing(s) && R.IsBlocked(s.t, x) && !D.InDeadlock(s.t, x)
    requires forall y :: y in s.k.live ==> !MayRun(s.k, y)
    ensures (exists r :: r in s.t.blocks && s.t.blocks[r].instances > 0 && s.t.blocks[r].blocked != []) ||
            (exists z :: z in s.k.live && WillEnd(s.k, z) && R.HeldBy(s.t, z) != {})
  {
    var r, h := FrontierOf(totals, s.t, x);
    if s.t.blocks[r].instances <= 0 {
      NotNew(degree, totals, s, r, h);
      MayRunOrWillEnd(degree, totals, s, h);
    }
  }

  lemma NearerWithoutRunner(degree: nat, totals: map<string, nat>, s: State, x: Pid) returns (u: State)
    requires Pending(degree, totals, s, x) && R.IsBlocked(s.t, x) && !Ripe(s.t)
    requires forall y :: y in s.k.live ==> !MayRun(s.k, y)
    ensures Hope(degree, totals, u, x) && LeadsTo(s, u) && !D.InDeadlock(u.t, x)
    ensures !Forgotten(u) && Smaller(u, s)
  {
    if z :| z in s.k.live && WillEnd(s.k, z) && R.HeldBy(s.t, z) != {} {
      u := EndHolder(degree, totals, s, x, z);
    } else {
      HolderWillEnd(degree, totals, s, x);
      var r :| r in s.t.blocks && s.t.blocks[r].instances > 0 && s.t.blocks[r].blocked != [];
      assert IsServed(s.t, r);
      assert s.t.posts == 0 && MayAdmit(s.k);
      if s.k.grd > 0 {
        u := AdmitNearer(degree, totals, s, x);
      } else {
        var w :| w in s.k.live && MarkedAsleep(s.k, w);
        u := MakeRoom(degree, totals, s, x, w);
      }
    }
  }

  lemma Nearer(degree: nat, totals: map<string, nat>, s: State, x: Pid) returns (u: State)
    requires Pending(degree, totals, s, x) && R.IsBlocked(s.t, x)
    ensures Pending(degree, totals, u, x) && LeadsTo(s, u) && Smaller(u, s)
  {
    if Ripe(s.t) {
      var y;
      u, y := Serve(degree, totals, s, x);
      AWitnessRuns(u, y);
    } else if y :| y in s.k.live && MayRun(s.k, y) {
      u := NearerWithRunner(degree, totals, s, x, y);
    } else {
      u := NearerWithoutRunner(degree, totals, s, x);
    }
  }

  lemma FreeTargetMayRun(degree: nat, totals: map<string, nat>, s: State, x: Pid)
    requires Hope(degree, totals, s, x) && !R.IsBlocked(s.t, x)
    ensures MayRun(s.k, x)
  {
    MayRunOrWillEnd(degree, totals, s, x);
  }

  lemma {:induction false} PendingIsNotLost(degree: nat, totals: map<string, nat>, s: State, x: Pid)
    requires Pending(degree, totals, s, x)
    ensures !Lost(s)
    decreases |D.AllBlocked(s.t)|, |s.k.live|, |S.In(s.k, S.New)|
  {
    if R.IsBlocked(s.t, x) {
      var u := Nearer(degree, totals, s, x);
      PendingIsNotLost(degree, totals, u, x);
    } else {
      FreeTargetMayRun(degree, totals, s, x);
      var u := Up(degree, totals, s, x, x);
      Taken(degree, totals, u, x);
    }
  }

  lemma PostedIsNotLost(degree: nat, totals: map<string, nat>, s: State)
    requires Waiting(degree, totals, s) && s.k.finishPosts > 0
    ensures !Lost(s)
  {
    var x := S.In(s.k, S.Exec)[0];
    assert x in S.In(s.k, S.Exec) && x in s.k.live;
    EndNext(s, S.FinishByHand, x, S.FinishedByHand(s.k));
    var u := State(S.FinishedByHand(s.k), R.Remove(s.t, x));
    var events: seq<Event>, states: seq<State> := [Ends(S.FinishByHand, x)], [s, u];
    assert Continues(s, events, states) && IsFinish(events[0]);
  }

  lemma NotHopelessIsNotLost(degree: nat, totals: map<string, nat>, s: State)
    requires Waiting(degree, totals, s) && !Hopeless(s)
    ensures !Lost(s)
  {
    if s.k.finishPosts > 0 {
      PostedIsNotLost(degree, totals, s);
    } else {
      var x :| x in s.k.finishing;
      S.OnlyElement(s.k.finishing, x);
      PendingIsNotLost(degree, totals, s, x);
    }
  }

  lemma WaitingInRuns(degree: nat, totals: map<string, nat>, events: seq<Event>, states: seq<State>, i: nat)
    requires IsRun(degree, totals, events, states) && i <= |events| && states[i].k.finishing != {}
    ensures Waiting(degree, totals, states[i])
  {
    KernelStaysLinked(degree, totals, events, states, i);
    NewKept(degree, totals, events, states, i);
    var steps, kernels := SchedulerRuns(degree, totals, events, states, i);
    M.WaitKept(degree, steps, kernels, |steps|);
    S.FinishAlwaysHitsTarget(degree, steps, kernels, |steps|);
  }

  /** Main theorem, over every run of scheduler and resources, while the console waits: whatever the processes call
      from now on its wait does not end, if and only if it is out of reach of the scheduler, or its process is in a
      deadlock, or nobody is left who could wake anybody. */
  lemma ManualFinishIsLostIff(degree: nat, totals: map<string, nat>, events: seq<Event>, states: seq<State>, i: nat)
    requires IsRun(degree, totals, events, states) && i <= |events| && states[i].k.finishing != {}
    ensures Lost(states[i]) <==> Hopeless(states[i])
  {
    WaitingInRuns(degree, totals, events, states, i);
    if Hopeless(states[i]) {
      HopelessIsLost(degree, totals, states[i]);
    } else {
      NotHopelessIsNotLost(degree, totals, states[i]);
    }
  }

  lemma {:induction false} StaysHopeless(degree: nat, totals: map<string, nat>, events: seq<Event>, states: seq<State>,
                                         k: nat, i: nat)
    requires IsRun(degree, totals, events, states) && k <= i <= |events| && WaitsInVain(degree, totals, states[k])
    ensures WaitsInVain(degree, totals, states[i])
  {
    if k < i {
      StaysHopeless(degree, totals, events, states, k, i - 1);
      HopelessStep(degree, totals, states[i - 1], events[i - 1], states[i]);
    }
  }

  lemma WaitingConsole(s: State, e: Event, u: State)
    requires s.k.finishing != {} && Next(s, e, u)
    ensures !e.Creates? && (e.Plain? || e.Ends? ==> !e.step.Kill?)
  {
  }

  lemma NothingFrom(degree: nat, totals: map<string, nat>, s: State, e: Event, u: State)
    requires WaitsInVain(degree, totals, s) && Next(s, e, u)
    ensures !e.Creates? && !IsFinish(e) && (e.Plain? || e.Ends? ==> !e.step.Kill?)
  {
    WaitingConsole(s, e, u);
    HopelessStep(degree, totals, s, e, u);
  }

  /** And from then on the console does nothing at all: it creates no process and kills none. */
  lemma ConsoleIsDeaf(degree: nat, totals: map<string, nat>, events: seq<Event>, states: seq<State>, k: nat, i: nat)
    requires IsRun(degree, totals, events, states) && k <= i < |events|
    requires states[k].k.finishing != {} && Hopeless(states[k])
    ensures !events[i].Creates? && !IsFinish(events[i])
    ensures events[i].Plain? || events[i].Ends? ==> !events[i].step.Kill?
  {
    WaitingInRuns(degree, totals, events, states, k);
    StaysHopeless(degree, totals, events, states, k, i);
    NothingFrom(degree, totals, states[i], events[i], states[i + 1]);
  }
}
