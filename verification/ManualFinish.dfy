/** The manual finish of a process in EXEC: the console sends an interrupt to the CPU and waits until the process
    comes back with it. When that wait ends, and when it never will, in the scheduler by itself: there the wait of a
    process for a resource, a file or a page may end at any time. LostFinish is about the waits for resources. */
module ManualFinish {
  import opened Paging
  import opened Scheduler

  // ----- continuations

  ghost predicate Continues(s: Kernel, events: seq<Event>, states: seq<Kernel>) {
    && |states| == |events| + 1
    && states[0] == s
    && (forall i :: 0 <= i < |events| ==> Next(states[i], events[i], states[i + 1]))
  }

  predicate Finishes(events: seq<Event>) {
    exists i :: 0 <= i < |events| && events[i].FinishByHand?
  }

  /** The console waits for ever: in no continuation of the scheduler does its wait end. */
  ghost predicate Lost(s: Kernel) {
    forall events, states :: Continues(s, events, states) ==> !Finishes(events)
  }

  /** What can be seen of that in the state: nothing is posted, and the interrupt is gone, or its process is in EXIT
      or eliminated already, or nobody acts on EXEC any more. */
  predicate OutOfReach(s: Kernel) {
    s.finishPosts == 0 && (!s.message || TargetLeft(s) || Abandoned(s))
  }

  predicate TargetLeft(s: Kernel) {
    exists x :: x in s.finishing && (x in In(s, Exit) || x !in s.live)
  }

  // ----- what every run keeps of the wait

  /** The console waits for one process at most, which was in EXEC and so is neither new nor marked where it sleeps; the
      interrupt is there only while it waits and nothing is posted. */
  predicate WaitFits(s: Kernel) {
    && (s.message ==> s.finishing != {} && s.finishPosts == 0)
    && (s.finishing == {} ==> s.finishPosts == 0)
    && (forall x :: x in s.finishing ==> x < s.next && x !in In(s, New) && TargetUnmarked(s, x))
  }

  predicate TargetUnmarked(s: Kernel, x: Pid) {
    x in In(s, Sleep) || x in In(s, Interrupt) ==> x !in s.marked
  }

  lemma ReturnFits(degree: nat, s: Kernel, r: Reason)
    requires Inv(degree, s) && WaitFits(s) && s.running && In(s, Exec) != [] && (r.InterruptFinish? ==> s.message)
    ensures WaitFits(Returned(s, r))
  {
    var t, pid := Returned(s, r), In(s, Exec)[0];
    assert OutcomeOf(r).AwaitsFinish? <==> r.InterruptFinish?;
    ReturnMoves(degree, s, r);
    forall x | x in t.finishing ensures x < t.next && x !in In(t, New) && TargetUnmarked(t, x) {
      assert TargetUnmarked(s, x);
    }
  }

  lemma WakeFits(degree: nat, s: Kernel, p: Place, pid: Pid)
    requires Inv(degree, s) && WaitFits(s) && IsWaiting(p) && pid in In(s, p)
    ensures WaitFits(Woken(s, p, pid))
  {
    var t := Woken(s, p, pid);
    WakeMoves(degree, s, p, pid);
    forall x | x in t.finishing ensures x < t.next && x !in In(t, New) && TargetUnmarked(t, x) {
      assert TargetUnmarked(s, x);
    }
  }

  lemma KillFits(degree: nat, s: Kernel, p: Place, pid: Pid)
    requires Inv(degree, s) && WaitFits(s) && s.finishing == {} && pid in In(s, p)
    ensures WaitFits(Killed(s, p, pid))
  {
    assert pid in s.live && forall q :: pid in In(s, q) ==> q == p;
  }

  /** The lists that a wait could depend on did not change. */
  lemma QuietFits(s: Kernel, t: Kernel)
    requires WaitFits(s) && t.finishing == s.finishing && t.message == s.message && t.finishPosts == s.finishPosts
    requires t.next >= s.next && t.marked == s.marked
    requires s.finishing != {} ==> forall x :: x in In(t, New) ==> x in In(s, New)
    requires s.finishing != {} ==> In(t, Sleep) == In(s, Sleep) && In(t, Interrupt) == In(s, Interrupt)
    ensures WaitFits(t)
  {
    forall x | x in t.finishing ensures TargetUnmarked(t, x) {
      assert TargetUnmarked(s, x);
    }
  }

  lemma AdmitFits(degree: nat, s: Kernel)
    requires Inv(degree, s) && WaitFits(s) && s.grd > 0 && In(s, New) != []
    ensures WaitFits(Admitted(s))
  {
    TakenKeeps(s.lists, s.live, New, In(s, New)[0]);
    QuietFits(s, Admitted(s));
  }

  lemma FitsStep(degree: nat, s: Kernel, e: Event, t: Kernel)
    requires Inv(degree, s) && Next(s, e, t) && WaitFits(s)
    ensures WaitFits(t)
  {
    match e
    case Admit => AdmitFits(degree, s);
    case Return(r) => ReturnFits(degree, s, r);
    case Wake(p, pid) => WakeFits(degree, s, p, pid);
    case Kill(p, pid) => KillFits(degree, s, p, pid);
    case Discard =>
    case FinishByHand => assert s.finishPosts == 1;
    case _ => QuietFits(s, t);
  }

  lemma {:induction false} WaitKept(degree: nat, events: seq<Event>, states: seq<Kernel>, i: nat)
    requires IsRun(degree, events, states) && i <= |events|
    ensures WaitFits(states[i])
  {
    if i > 0 {
      WaitKept(degree, events, states, i - 1);
      QueuesStayInOrder(degree, events, states, i - 1);
      FitsStep(degree, states[i - 1], events[i - 1], states[i]);
    }
  }

  // ----- out of reach is for ever

  lemma LeftStays(degree: nat, s: Kernel, e: Event, t: Kernel, x: Pid)
    requires Inv(degree, s) && Next(s, e, t) && s.finishing == {x} && x < s.next && s.finishPosts == 0
    requires x in In(s, Exit) || x !in s.live
    ensures x in In(t, Exit) || x !in t.live
  {
    NextKeeps(degree, s, e, t);
    var y := NextFollows(degree, s, e, t);
    if x in In(s, Exit) {
      PlaceIs(s, x, Exit);
    } else {
      PlaceIsNowhere(s, x);
    }
    StaysOut(degree, t, x);
  }

  lemma StaysOut(degree: nat, t: Kernel, x: Pid)
    requires Inv(degree, t) && (PlaceOf(t, x) == Somewhere(Exit) || PlaceOf(t, x) == Nowhere)
    ensures x in In(t, Exit) || x !in t.live
  {
    if x in t.live {
      assert IsSomewhere(t.lists, x);
      var p :| x in At(t.lists, p);
      PlaceIs(t, x, p);
    }
  }

  /** A wait that is out of reach stays so, and does not end. */
  lemma StaysOutOfReach(degree: nat, s: Kernel, e: Event, t: Kernel)
    requires Inv(degree, s) && WaitFits(s) && FinishHitsTarget(s) && Next(s, e, t) && s.finishing != {} && OutOfReach(s)
    ensures !e.FinishByHand? && t.finishing == s.finishing && OutOfReach(t)
  {
    var x :| x in s.finishing;
    OnlyElement(s.finishing, x);
    if Abandoned(s) {
      AbandonedStays(s, e, t, In(s, Exec));
    } else if TargetLeft(s) {
      LeftStays(degree, s, e, t, x);
      LeftReturn(degree, s, e, x);
    }
    if e.Return? {
      ReturnOutOfReach(degree, s, e.reason, x);
    }
  }

  /** A process that has left EXEC does not come back from the CPU. */
  lemma LeftReturn(degree: nat, s: Kernel, e: Event, x: Pid)
    requires Inv(degree, s) && (x in In(s, Exit) || x !in s.live)
    ensures In(s, Exec) == [] || In(s, Exec)[0] != x
  {
    if In(s, Exec) != [] {
      assert In(s, Exec)[0] in In(s, Exec);
    }
  }

  lemma ReturnOutOfReach(degree: nat, s: Kernel, r: Reason, x: Pid)
    requires Inv(degree, s) && s.finishing == {x} && s.running && In(s, Exec) != [] && OutOfReach(s)
    requires r.InterruptFinish? ==> s.message && In(s, Exec)[0] in s.finishing
    ensures !r.InterruptFinish? && Returned(s, r).finishPosts == 0 && Returned(s, r).message == s.message
  {
    assert OutcomeOf(r).AwaitsFinish? <==> r.InterruptFinish?;
    if TargetLeft(s) {
      LeftReturn(degree, s, Return(r), x);
    }
  }

  ghost predicate Waiting(degree: nat, s: Kernel) {
    Inv(degree, s) && WaitFits(s) && FinishHitsTarget(s) && s.finishing != {}
  }

  lemma WaitingStep(degree: nat, s: Kernel, e: Event, t: Kernel)
    requires Waiting(degree, s) && Next(s, e, t)
    ensures Inv(degree, t) && WaitFits(t) && FinishHitsTarget(t)
  {
    NextKeeps(degree, s, e, t);
    FitsStep(degree, s, e, t);
    FinishStaysOnTarget(degree, s, e, t);
  }

  ghost predicate WaitsInVain(degree: nat, s: Kernel) {
    Waiting(degree, s) && OutOfReach(s)
  }

  lemma InVainStep(degree: nat, s: Kernel, e: Event, t: Kernel)
    requires WaitsInVain(degree, s) && Next(s, e, t)
    ensures WaitsInVain(degree, t) && !e.FinishByHand?
  {
    WaitingStep(degree, s, e, t);
    StaysOutOfReach(degree, s, e, t);
  }

  lemma {:induction false} OutOfReachKept(degree: nat, s: Kernel, events: seq<Event>, states: seq<Kernel>, i: nat)
    requires WaitsInVain(degree, s) && Continues(s, events, states) && i <= |events|
    ensures WaitsInVain(degree, states[i]) && forall k :: 0 <= k < i ==> !events[k].FinishByHand?
  {
    if i > 0 {
      OutOfReachKept(degree, s, events, states, i - 1);
      InVainStep(degree, states[i - 1], events[i - 1], states[i]);
    }
  }

  lemma OutOfReachIsLost(degree: nat, s: Kernel)
    requires Waiting(degree, s) && OutOfReach(s)
    ensures Lost(s)
  {
    forall events, states | Continues(s, events, states) ensures !Finishes(events) {
      OutOfReachKept(degree, s, events, states, |events|);
    }
  }

  // ----- within reach, there is a way

  lemma OneStepBefore(s: Kernel, e: Event, t: Kernel, events: seq<Event>, states: seq<Kernel>)
    requires Next(s, e, t) && Continues(t, events, states)
    ensures Continues(s, [e] + events, [s] + states)
  {
  }

  lemma FinishesLater(e: Event, events: seq<Event>)
    requires Finishes(events)
    ensures Finishes([e] + events)
  {
    var i :| 0 <= i < |events| && events[i].FinishByHand?;
    assert ([e] + events)[i + 1] == events[i];
  }

  lemma NotLostAfter(s: Kernel, e: Event, t: Kernel)
    requires Next(s, e, t) && !Lost(t)
    ensures !Lost(s)
  {
    var events: seq<Event>, states: seq<Kernel> :| Continues(t, events, states) && Finishes(events);
    OneStepBefore(s, e, t, events, states);
    FinishesLater(e, events);
  }

  lemma PostedIsNotLost(s: Kernel)
    requires s.finishPosts > 0 && s.finishing != {} && In(s, Exec) != []
    ensures !Lost(s)
  {
    var events: seq<Event>, states := [FinishByHand], [s, FinishedByHand(s)];
    assert Continues(s, events, states) && events[0].FinishByHand?;
  }

  /** The console waits for x, its interrupt is there, x has not left, and somebody acts on EXEC. */
  ghost predicate Hopeful(degree: nat, s: Kernel, x: Pid) {
    && Inv(degree, s) && s.finishing == {x} && s.message && s.finishPosts == 0 && !Abandoned(s)
    && x in s.live && x !in In(s, New) && x !in In(s, Exit) && TargetUnmarked(s, x)
  }

  lemma ReturnsWithInterrupt(degree: nat, s: Kernel, x: Pid)
    requires Hopeful(degree, s, x) && x in In(s, Exec) && s.running
    ensures !Lost(s)
  {
    var t := Returned(s, InterruptFinish);
    PostedIsNotLost(t);
    NotLostAfter(s, Return(InterruptFinish), t);
  }

  lemma SentIsHopeful(degree: nat, s: Kernel, x: Pid)
    requires Hopeful(degree, s, x) && In(s, Exec) != [] && !s.running
    ensures s.execPosts > 0 && Hopeful(degree, Sent(s), x) && Sent(s).running && Sent(s).lists == s.lists
  {
    NextKeeps(degree, s, Send, Sent(s));
  }

  lemma ExecFinishes(degree: nat, s: Kernel, x: Pid)
    requires Hopeful(degree, s, x) && x in In(s, Exec)
    ensures !Lost(s)
  {
    if s.running {
      ReturnsWithInterrupt(degree, s, x);
    } else {
      SentIsHopeful(degree, s, x);
      ReturnsWithInterrupt(degree, Sent(s), x);
      NotLostAfter(s, Send, Sent(s));
    }
  }

  /** Another process in the CPU faults, and leaves EXEC empty. */
  lemma OtherFaults(degree: nat, s: Kernel, x: Pid)
    requires Hopeful(degree, s, x) && In(s, Exec) != [] && s.running && x !in In(s, Exec)
    ensures var t := Returned(s, PageFaulted);
      Hopeful(degree, t, x) && In(t, Exec) == [] && In(t, Ready) == In(s, Ready) && Next(s, Return(PageFaulted), t)
  {
    var t := Returned(s, PageFaulted);
    NextKeeps(degree, s, Return(PageFaulted), t);
    AbandonedIff(degree, s, Return(PageFaulted), t);
    assert In(s, Exec) == [In(s, Exec)[0]];
    ReturnMoves(degree, s, PageFaulted);
    assert TargetUnmarked(s, x);
  }

  /** EXEC can be emptied while the process stays in READY. */
  lemma Emptied(degree: nat, s: Kernel, x: Pid) returns (t: Kernel)
    requires Hopeful(degree, s, x) && x in In(s, Ready)
    ensures Hopeful(degree, t, x) && In(t, Exec) == [] && In(t, Ready) == In(s, Ready) && (!Lost(t) ==> !Lost(s))
  {
    if In(s, Exec) == [] {
      t := s;
    } else if s.running {
      OtherFaults(degree, s, x);
      t := Returned(s, PageFaulted);
      if !Lost(t) { NotLostAfter(s, Return(PageFaulted), t); }
    } else {
      SentIsHopeful(degree, s, x);
      OtherFaults(degree, Sent(s), x);
      t := Returned(Sent(s), PageFaulted);
      if !Lost(t) {
        NotLostAfter(Sent(s), Return(PageFaulted), t);
        NotLostAfter(s, Send, Sent(s));
      }
    }
  }

  /** The scheduler takes a process from READY, by whatever policy. */
  lemma DispatchIsHopeful(degree: nat, s: Kernel, x: Pid, y: Pid, policy: Policy, priority: map<Pid, int>)
    requires Hopeful(degree, s, x) && In(s, Exec) == [] && y in In(s, Ready)
    ensures s.readyPosts > 0
    ensures var t := Dispatched(s, policy, priority);
      && Next(s, Dispatch(policy, priority), t) && Hopeful(degree, t, x)
      && |In(t, Ready)| < |In(s, Ready)| && (y in In(t, Ready) || y in In(t, Exec))
  {
    var t := Dispatched(s, policy, priority);
    NextKeeps(degree, s, Dispatch(policy, priority), t);
    AbandonedIff(degree, s, Dispatch(policy, priority), t);
    DispatchMoves(degree, s, policy, priority);
    MovedKeeps(s.lists, s.live, Ready, Exec, In(s, Ready)[Chosen(policy, In(s, Ready), priority)]);
    assert TargetUnmarked(s, x);
  }

  lemma {:induction false} ReadyFinishes(degree: nat, s: Kernel, x: Pid, policy: Policy, priority: map<Pid, int>)
    requires Hopeful(degree, s, x) && x in In(s, Ready)
    ensures !Lost(s)
    decreases |In(s, Ready)|
  {
    var t := Emptied(degree, s, x);
    DispatchIsHopeful(degree, t, x, x, policy, priority);
    var u := Dispatched(t, policy, priority);
    if x in In(u, Exec) {
      ExecFinishes(degree, u, x);
    } else {
      ReadyFinishes(degree, u, x, policy, priority);
    }
    NotLostAfter(t, Dispatch(policy, priority), u);
  }

  /** The wait of a process that is not marked ends in READY. */
  lemma WakeIsHopeful(degree: nat, s: Kernel, x: Pid, p: Place, y: Pid)
    requires Hopeful(degree, s, x) && IsWaiting(p) && y in In(s, p) && (p == Sleep || p == Interrupt ==> y !in s.marked)
    ensures var t := Woken(s, p, y);
      && Hopeful(degree, t, x) && |In(t, p)| == |In(s, p)| - 1 && y in In(t, Ready)
      && (forall z, q :: z != y ==> (z in In(t, q) <==> z in In(s, q)))
  {
    var t := Woken(s, p, y);
    WakeMoves(degree, s, p, y);
    WakeKeeps(degree, s, p, y);
    MovedKeeps(s.lists, s.live, p, Ready, y);
    WakeElsewhere(s, p, y);
    assert TargetUnmarked(s, x);
  }

  lemma {:induction false} WaitingFinishes(degree: nat, s: Kernel, x: Pid, p: Place)
    requires Hopeful(degree, s, x) && IsWaiting(p) && x in In(s, p)
    ensures !Lost(s)
    decreases |In(s, p)|
  {
    var y := if p.Blocked? then In(s, p)[0] else x;
    var t := Woken(s, p, y);
    WakeIsHopeful(degree, s, x, p, y);
    if y == x {
      ReadyFinishes(degree, t, x, FifoOrder, map[]);
    } else {
      WaitingFinishes(degree, t, x, p);
    }
    NotLostAfter(s, Wake(p, y), t);
  }

  lemma HopefulFinishes(degree: nat, s: Kernel, x: Pid)
    requires Hopeful(degree, s, x)
    ensures !Lost(s)
  {
    assert IsSomewhere(s.lists, x);
    var p :| x in At(s.lists, p);
    if p == Exec {
      ExecFinishes(degree, s, x);
    } else if p == Ready {
      ReadyFinishes(degree, s, x, FifoOrder, map[]);
    } else {
      WaitingFinishes(degree, s, x, p);
    }
  }

  lemma WithinReachIsNotLost(degree: nat, s: Kernel)
    requires Waiting(degree, s) && !OutOfReach(s)
    ensures !Lost(s)
  {
    if s.finishPosts > 0 {
      PostedIsNotLost(s);
    } else {
      var x :| x in s.finishing;
      OnlyElement(s.finishing, x);
      HopefulFinishes(degree, s, x);
    }
  }

  /** Over every run of the scheduler, where every other wait may end, while the console waits: it waits for ever if
      and only if nothing is posted and its interrupt is gone, or its process is in EXIT or eliminated, or nobody acts
      on EXEC any more. */
  lemma ManualFinishIsLostIff(degree: nat, events: seq<Event>, states: seq<Kernel>, i: nat)
    requires IsRun(degree, events, states) && i <= |events| && states[i].finishing != {}
    ensures Lost(states[i]) <==> OutOfReach(states[i])
  {
    QueuesStayInOrder(degree, events, states, i);
    WaitKept(degree, events, states, i);
    FinishAlwaysHitsTarget(degree, events, states, i);
    if OutOfReach(states[i]) {
      OutOfReachIsLost(degree, states[i]);
    } else {
      WithinReachIsNotLost(degree, states[i]);
    }
  }

  /** And from then on the console does nothing at all: it creates no process and kills none. */
  lemma ConsoleIsDeaf(degree: nat, events: seq<Event>, states: seq<Kernel>, k: nat, i: nat)
    requires IsRun(degree, events, states) && k <= i < |events| && states[k].finishing != {} && OutOfReach(states[k])
    ensures !events[i].Create? && !events[i].Kill? && !events[i].FinishByHand?
  {
    QueuesStayInOrder(degree, events, states, k);
    WaitKept(degree, events, states, k);
    FinishAlwaysHitsTarget(degree, events, states, k);
    var later, after := events[k..], states[k..];
    assert Continues(states[k], later, after);
    OutOfReachKept(degree, states[k], later, after, i - k);
    assert later[i - k] == events[i] && after[i - k] == states[i];
    assert Next(states[i], events[i], states[i + 1]);
  }

  // ----- three runs that get there

  lemma ReachedMeansLost(degree: nat, events: seq<Event>, states: seq<Kernel>)
    requires IsRun(degree, events, states) && states[|events|].finishing != {} && OutOfReach(states[|events|])
    ensures Lost(states[|events|])
  {
    ManualFinishIsLostIff(degree, events, states, |events|);
  }

  /** Two processes are ready, from any degree that admits two. */
  lemma TwoReady(degree: nat) returns (events: seq<Event>, states: seq<Kernel>)
    requires degree >= 2
    ensures IsRun(degree, events, states)
    ensures var s := states[|events|];
      && In(s, Ready) == [1, 2] && In(s, Exec) == [] && s.readyPosts == 2 && s.execPosts == 0 && !s.running
      && s.finishing == {} && s.finishPosts == 0
  {
    var s0 := Kernel(map[], {}, {}, 0, degree, 0, 0, 0, 0, false, false, {}, false, 1);
    var s1 := Created(s0, 1);
    var s2 := AdmissionStarted(s1);
    assert In(s2, New) == [1];
    var s3 := Admitted(s2);
    assert In(s3, Ready) == [1] && In(s3, New) == [];
    var s4 := Created(s3, 2);
    assert In(s4, New) == [2];
    var s5 := AdmissionStarted(s4);
    var s6 := Admitted(s5);
    assert In(s6, Ready) == [1, 2] && In(s6, Exec) == [];
    events, states := [Create(1), StartAdmission, Admit, Create(2), StartAdmission, Admit],
      [s0, s1, s2, s3, s4, s5, s6];
  }

  lemma DispatchedNext(s: Kernel, pid: Pid, queue: seq<Pid>)
    requires In(s, Exec) == [] && In(s, Ready) == [pid] + queue && s.readyPosts > 0
    ensures var t := Dispatched(s, FifoOrder, map[]);
      && Next(s, Dispatch(FifoOrder, map[]), t) && In(t, Exec) == [pid] && In(t, Ready) == queue
      && t.execPosts == s.execPosts + 1 && t.readyPosts == s.readyPosts - 1
      && t.running == s.running && t.finishing == s.finishing && t.message == s.message &&
        t.finishPosts == s.finishPosts
  {
  }

  /** The first process is in the CPU when the console asks for its end, and the second follows it in READY. */
  lemma EndAskedFor(degree: nat) returns (events: seq<Event>, states: seq<Kernel>)
    requires degree >= 2
    ensures IsRun(degree, events, states)
    ensures var s := states[|events|];
      && In(s, Exec) == [1] && In(s, Ready) == [2] && s.running && s.execPosts == 0 && s.readyPosts == 1
      && s.finishing == {1} && s.message && s.finishPosts == 0
  {
    events, states := TwoReady(degree);
    var s := states[|events|];
    DispatchedNext(s, 1, [2]);
    var t := Dispatched(s, FifoOrder, map[]);
    RunGoesOn(degree, events, states, s, Dispatch(FifoOrder, map[]), t);
    events, states := events + [Dispatch(FifoOrder, map[])], states + [t];
    var u := Sent(t);
    RunGoesOn(degree, events, states, t, Send, u);
    events, states := events + [Send], states + [u];
    var v := Killed(u, Exec, 1);
    RunGoesOn(degree, events, states, u, Kill(Exec, 1), v);
    events, states := events + [Kill(Exec, 1)], states + [v];
  }

  lemma FaultsBeforeTheEnd(degree: nat) returns (events: seq<Event>, states: seq<Kernel>)
    requires degree >= 2
    ensures IsRun(degree, events, states)
    ensures var s := states[|events|];
      && In(s, Exec) == [] && In(s, Ready) == [2] && 1 in In(s, Fault) && s.readyPosts > 0 && !s.running
      && s.finishing == {1} && s.message && s.finishPosts == 0
  {
    events, states := EndAskedFor(degree);
    var s := states[|events|];
    var t := Returned(s, PageFaulted);
    assert In(t, Exec) == [] && In(t, Ready) == [2] && In(t, Fault) == At(s.lists, Fault) + [1];
    RunGoesOn(degree, events, states, s, Return(PageFaulted), t);
    events, states := events + [Return(PageFaulted)], states + [t];
  }

  /** The process comes back with a page fault before the CPU looks at the interrupt, and the next one throws it
      away. */
  lemma FinishCanBeThrownAway(degree: nat) returns (events: seq<Event>, states: seq<Kernel>)
    requires degree >= 2
    ensures IsRun(degree, events, states)
    ensures var s := states[|events|]; Lost(s) && s.finishing == {1} && !s.message && !TargetLeft(s) && !Abandoned(s)
  {
    events, states := FaultsBeforeTheEnd(degree);
    var t := states[|events|];
    DispatchedNext(t, 2, []);
    var u := Dispatched(t, FifoOrder, map[]);
    RunGoesOn(degree, events, states, t, Dispatch(FifoOrder, map[]), u);
    events, states := events + [Dispatch(FifoOrder, map[])], states + [u];
    var v := Sent(u);
    RunGoesOn(degree, events, states, u, Send, v);
    events, states := events + [Send], states + [v];
    var w := Discarded(v);
    RunGoesOn(degree, events, states, v, Discard, w);
    events, states := events + [Discard], states + [w];
    ReachedMeansLost(degree, events, states);
    QueuesStayInOrder(degree, events, states, |events|);
    InFaultIsThere(w, 1);
  }

  lemma InFaultIsThere(s: Kernel, x: Pid)
    requires Partition(s.lists, s.live) && x in In(s, Fault) && s.finishing == {x}
    ensures !TargetLeft(s)
  {
  }

  /** The process ends by itself before the CPU looks at the interrupt. */
  lemma FinishCanComeTooLate(degree: nat) returns (events: seq<Event>, states: seq<Kernel>)
    requires degree >= 2
    ensures IsRun(degree, events, states)
    ensures var s := states[|events|]; Lost(s) && s.finishing == {1} && s.message && TargetLeft(s) && !Abandoned(s)
  {
    events, states := EndAskedFor(degree);
    var s := states[|events|];
    var t := Returned(s, Finished);
    assert In(t, Exec) == [] && In(t, Exit) == At(s.lists, Exit) + [1] && 1 in In(t, Exit);
    RunGoesOn(degree, events, states, s, Return(Finished), t);
    events, states := events + [Return(Finished)], states + [t];
    ReachedMeansLost(degree, events, states);
  }

  /** The process was left in EXEC by an F_OPEN in another mode. */
  lemma FinishCanMeetNobody(degree: nat) returns (events: seq<Event>, states: seq<Kernel>)
    requires degree > 0
    ensures IsRun(degree, events, states)
    ensures var s := states[|events|]; Lost(s) && s.finishing == {1} && s.message && !TargetLeft(s) && Abandoned(s)
  {
    events, states := SlotCanBeAbandoned(degree);
    var s := states[|events|];
    WaitKept(degree, events, states, |events|);
    var t := Killed(s, Exec, 1);
    RunGoesOn(degree, events, states, s, Kill(Exec, 1), t);
    events, states := events + [Kill(Exec, 1)], states + [t];
    ReachedMeansLost(degree, events, states);
    QueuesStayInOrder(degree, events, states, |events|);
    assert 1 in In(t, Exec);
  }
}
