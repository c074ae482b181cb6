/** Over whole runs of the scheduler: every queue is in order of arrival, which process a policy dispatches, and how
    many posts the semaphores hold. */
module Dispatching {
  import opened Paging
  import opened Scheduler

  // ----- order of arrival

  /** The state in which the process last arrived in the place where it is. */
  function ArrivedAt(states: seq<Kernel>, i: nat, p: Place, x: Pid): nat
    requires i < |states|
  {
    if i == 0 || x !in In(states[i - 1], p) then i else ArrivedAt(states, i - 1, p, x)
  }

  lemma {:induction false} ArrivedBefore(states: seq<Kernel>, i: nat, p: Place, x: Pid)
    requires i < |states|
    ensures ArrivedAt(states, i, p, x) <= i
  {
    if i > 0 && x in In(states[i - 1], p) {
      ArrivedBefore(states, i - 1, p, x);
    }
  }

  /** One element leaves, or one arrives at the end, or neither. */
  ghost predicate OneChange(q: seq<Pid>, r: seq<Pid>) {
    r == q || (exists k :: OneLess(q, r, k)) || (exists x :: OneMore(q, r, x))
  }

  predicate OneLess(q: seq<Pid>, r: seq<Pid>, k: nat) {
    k < |q| && r == q[..k] + q[k + 1..]
  }

  predicate OneMore(q: seq<Pid>, r: seq<Pid>, x: Pid) {
    x !in q && r == q + [x]
  }

  lemma {:induction false} RemovedAt(q: seq<Pid>, x: Pid) returns (k: nat)
    requires x in q
    ensures k < |q| && q[k] == x && RemoveFirst(q, x) == q[..k] + q[k + 1..]
  {
    if q[0] == x {
      k := 0;
    } else {
      var m := RemovedAt(q[1..], x);
      k := m + 1;
      assert q[..k] == [q[0]] + q[1..][..m] && q[k + 1..] == q[1..][m + 1..];
    }
  }

  lemma TakenChange(lists: Lists, from: Place, x: Pid, p: Place)
    requires x in At(lists, from)
    ensures OneChange(At(lists, p), At(Taken(lists, from, x), p))
  {
    if p == from {
      var k := RemovedAt(At(lists, p), x);
      assert OneLess(At(lists, p), At(Taken(lists, from, x), p), k);
    }
  }

  lemma MovedChange(lists: Lists, from: Place, to: Place, x: Pid, p: Place)
    requires x in At(lists, from) && x !in At(lists, to)
    ensures OneChange(At(lists, p), At(Moved(lists, from, to, x), p))
  {
    TakenChange(lists, from, x, p);
    if p == to {
      assert OneMore(At(lists, p), At(Moved(lists, from, to, x), p), x);
    }
  }

  /** Everybody is in one place, so who leaves one place for another is new there. */
  lemma MoveChange(s: Kernel, t: Kernel, from: Place, to: Place, x: Pid, p: Place)
    requires Partition(s.lists, s.live) && x in In(s, from) && from != to && t.lists == Moved(s.lists, from, to, x)
    ensures OneChange(In(s, p), In(t, p))
  {
    MovedChange(s.lists, from, to, x, p);
  }

  lemma LeaveChange(s: Kernel, t: Kernel, from: Place, x: Pid, p: Place)
    requires x in In(s, from) && t.lists == Taken(s.lists, from, x)
    ensures OneChange(In(s, p), In(t, p))
  {
    TakenChange(s.lists, from, x, p);
  }

  lemma ReturnChange(degree: nat, s: Kernel, r: Reason, p: Place)
    requires Inv(degree, s) && s.running && In(s, Exec) != []
    ensures OneChange(In(s, p), In(Returned(s, r), p))
  {
    var t, x := Returned(s, r), In(s, Exec)[0];
    ReturnLists(degree, s, r);
    match OutcomeOf(r)
    case Waits(place) => MoveChange(s, t, Exec, place, x, p);
    case Leaves => MoveChange(s, t, Exec, Exit, x, p);
    case _ =>
  }

  lemma WakeChange(degree: nat, s: Kernel, from: Place, x: Pid, p: Place)
    requires Inv(degree, s) && IsWaiting(from) && x in In(s, from)
    ensures OneChange(In(s, p), In(Woken(s, from, x), p))
  {
    if x in s.marked && (from == Sleep || from == Interrupt) {
      LeaveChange(s, Woken(s, from, x), from, x, p);
    } else {
      MoveChange(s, Woken(s, from, x), from, Ready, x, p);
    }
  }

  lemma KillChange(s: Kernel, from: Place, x: Pid, p: Place)
    requires x in In(s, from)
    ensures OneChange(In(s, p), In(Killed(s, from, x), p))
  {
    match from
    case New | Exit | Ready | Blocked(_) => LeaveChange(s, Killed(s, from, x), from, x, p);
    case _ =>
  }

  lemma DispatchChange(degree: nat, s: Kernel, policy: Policy, priority: map<Pid, int>, p: Place)
    requires Inv(degree, s) && s.readyPosts > 0
    ensures OneChange(In(s, p), In(Dispatched(s, policy, priority), p))
  {
    if In(s, Exec) == [] && In(s, Ready) != [] {
      var x := In(s, Ready)[Chosen(policy, In(s, Ready), priority)];
      MoveChange(s, Dispatched(s, policy, priority), Ready, Exec, x, p);
    }
  }

  lemma CreateChange(degree: nat, s: Kernel, x: Pid, p: Place)
    requires Inv(degree, s) && x == s.next
    ensures OneChange(In(s, p), In(Created(s, x), p))
  {
    if p == New {
      assert x !in s.live;
      assert OneMore(In(s, p), In(Created(s, x), p), x);
    }
  }

  lemma DrainChange(s: Kernel, p: Place)
    requires s.exitPosts > 0
    ensures OneChange(In(s, p), In(Drained(s), p))
  {
    if In(s, Exit) != [] {
      LeaveChange(s, Drained(s), Exit, In(s, Exit)[0], p);
    }
  }

  lemma NextChange(degree: nat, s: Kernel, e: Event, t: Kernel, p: Place)
    requires Inv(degree, s) && Next(s, e, t)
    ensures OneChange(In(s, p), In(t, p))
  {
    match e
    case Create(pid) => CreateChange(degree, s, pid, p);
    case Admit => MoveChange(s, t, New, Ready, In(s, New)[0], p);
    case Dispatch(policy, priority) => DispatchChange(degree, s, policy, priority, p);
    case Return(r) => ReturnChange(degree, s, r, p);
    case Wake(from, pid) => WakeChange(degree, s, from, pid, p);
    case Drain => DrainChange(s, p);
    case Kill(from, pid) => KillChange(s, from, pid, p);
    case FinishByHand => LeaveChange(s, t, Exec, In(s, Exec)[0], p);
    case StartAdmission | Send | Discard =>
  }

  ghost predicate InOrderOfArrival(states: seq<Kernel>, i: nat, p: Place)
    requires i < |states|
  {
    forall a, b :: 0 <= a < b < |In(states[i], p)| ==>
      ArrivedAt(states, i, p, In(states[i], p)[a]) < ArrivedAt(states, i, p, In(states[i], p)[b])
  }

  /** Who was there already arrived when it did; who was not arrived now, after all the others. */
  lemma OrderStep(states: seq<Kernel>, i: nat, p: Place)
    requires i + 1 < |states| && InOrderOfArrival(states, i, p) && OneChange(In(states[i], p), In(states[i + 1], p))
    ensures InOrderOfArrival(states, i + 1, p)
  {
    var q, r := In(states[i], p), In(states[i + 1], p);
    forall a, b | 0 <= a < b < |r|
      ensures ArrivedAt(states, i + 1, p, r[a]) < ArrivedAt(states, i + 1, p, r[b])
    {
      if k :| OneLess(q, r, k) {
        var c, d := if a < k then a else a + 1, if b < k then b else b + 1;
        assert r[a] == q[c] && r[b] == q[d];
      } else if x :| OneMore(q, r, x) {
        ArrivedBefore(states, i, p, r[a]);
      }
    }
  }

  /** Over every run, every queue is in the order in which its processes arrived. */
  lemma {:induction false} QueuesAreInOrderOfArrival(degree: nat, events: seq<Event>, states: seq<Kernel>, i: nat,
                                                     p: Place)
    requires IsRun(degree, events, states) && i <= |events|
    ensures InOrderOfArrival(states, i, p)
  {
    if i > 0 {
      QueuesAreInOrderOfArrival(degree, events, states, i - 1, p);
      QueuesStayInOrder(degree, events, states, i - 1);
      assert Next(states[i - 1], events[i - 1], states[i]);
      NextChange(degree, states[i - 1], events[i - 1], states[i], p);
      OrderStep(states, i - 1, p);
    }
  }

  // ----- who is dispatched

  /** The process goes before the other: with a lesser priority value under Priorities, and otherwise, or with the same
      value, if it has been ready for longer. */
  predicate GoesBefore(states: seq<Kernel>, i: nat, policy: Policy, priority: map<Pid, int>, x: Pid, y: Pid)
    requires i < |states|
  {
    if policy.Priorities? && Value(priority, x) != Value(priority, y) then Value(priority, x) < Value(priority, y)
    else ArrivedAt(states, i, Ready, x) < ArrivedAt(states, i, Ready, y)
  }

  /** Over every run, a dispatch that finds EXEC empty fills it with the process of READY that goes before all the
      others there. */
  lemma DispatchTakes(degree: nat, events: seq<Event>, states: seq<Kernel>, i: nat, policy: Policy,
                      priority: map<Pid, int>)
    returns (x: Pid)
    requires IsRun(degree, events, states) && i < |events| && events[i] == Dispatch(policy, priority)
    requires In(states[i], Exec) == [] && In(states[i], Ready) != []
    ensures In(states[i + 1], Exec) == [x] && x in In(states[i], Ready) && x !in In(states[i + 1], Ready)
    ensures forall y :: y in In(states[i], Ready) && y != x ==> GoesBefore(states, i, policy, priority, x, y)
  {
    var s, queue := states[i], In(states[i], Ready);
    var k := Chosen(policy, queue, priority);
    x := queue[k];
    QueuesStayInOrder(degree, events, states, i);
    QueuesAreInOrderOfArrival(degree, events, states, i, Ready);
    assert Next(s, events[i], states[i + 1]);
    TakenKeeps(s.lists, s.live, Ready, x);
    if policy.Priorities? {
      FirstOfTheLeast(queue, priority);
    }
    forall y | y in queue && y != x ensures GoesBefore(states, i, policy, priority, x, y) {
      var m :| 0 <= m < |queue| && queue[m] == y;
    }
  }

  ghost predicate OldestOf(states: seq<Kernel>, i: nat, p: Place, x: Pid)
    requires i < |states|
  {
    x in In(states[i], p) &&
    forall y :: y in In(states[i], p) && y != x ==> ArrivedAt(states, i, p, x) < ArrivedAt(states, i, p, y)
  }

  lemma HeadIsOldest(degree: nat, events: seq<Event>, states: seq<Kernel>, i: nat, p: Place)
    requires IsRun(degree, events, states) && i <= |events| && In(states[i], p) != []
    ensures OldestOf(states, i, p, In(states[i], p)[0])
  {
    var queue := In(states[i], p);
    QueuesAreInOrderOfArrival(degree, events, states, i, p);
    forall y | y in queue && y != queue[0]
      ensures ArrivedAt(states, i, p, queue[0]) < ArrivedAt(states, i, p, y)
    {
      var m :| 0 <= m < |queue| && queue[m] == y;
    }
  }

  /** Over every run, an admission takes the process that has been new for longest to READY. */
  lemma AdmitTakesOldest(degree: nat, events: seq<Event>, states: seq<Kernel>, i: nat) returns (x: Pid)
    requires IsRun(degree, events, states) && i < |events| && events[i] == Admit
    ensures OldestOf(states, i, New, x) && OnlyMove(states[i], states[i + 1], x, New, Ready)
  {
    assert Next(states[i], events[i], states[i + 1]);
    x := In(states[i], New)[0];
    HeadIsOldest(degree, events, states, i, New);
    QueuesStayInOrder(degree, events, states, i);
    AdmitMoves(degree, states[i]);
  }

  /** And a turn of the thread of EXIT eliminates the one that has been there for longest, if there is one. */
  lemma DrainTakesOldest(degree: nat, events: seq<Event>, states: seq<Kernel>, i: nat) returns (x: Pid)
    requires IsRun(degree, events, states) && i < |events| && events[i] == Drain && In(states[i], Exit) != []
    ensures OldestOf(states, i, Exit, x) && OnlyLeaves(states[i], states[i + 1], x, Exit)
  {
    assert Next(states[i], events[i], states[i + 1]);
    x := In(states[i], Exit)[0];
    HeadIsOldest(degree, events, states, i, Exit);
    QueuesStayInOrder(degree, events, states, i);
    LeftOnly(states[i], Drained(states[i]), Exit, x);
  }

  // ----- how many posts

  ghost predicate Enters(s: Kernel, t: Kernel, p: Place) {
    exists x :: x in In(t, p) && x !in In(s, p)
  }

  ghost predicate Leaves(s: Kernel, t: Kernel, p: Place) {
    Enters(t, s, p)
  }

  /** One process leaves the one for the other, if either is a place. */
  ghost predicate Traffic(s: Kernel, t: Kernel, from: Whereabouts, to: Whereabouts) {
    forall p :: (Enters(s, t, p) <==> to == Somewhere(p)) && (Leaves(s, t, p) <==> from == Somewhere(p))
  }

  lemma MoveTraffic(s: Kernel, t: Kernel, from: Place, to: Place, x: Pid)
    requires Partition(s.lists, s.live) && OnlyMove(s, t, x, from, to) && from != to
    requires Partition(t.lists, t.live)
    ensures Traffic(s, t, Somewhere(from), Somewhere(to))
  {
    assert x in In(t, to) && x !in In(s, to) && x in In(s, from) && x !in In(t, from);
  }

  lemma LeaveTraffic(s: Kernel, t: Kernel, from: Place, x: Pid)
    requires Partition(s.lists, s.live) && Partition(t.lists, t.live) && OnlyLeaves(s, t, x, from)
    ensures Traffic(s, t, Somewhere(from), Nowhere)
  {
    assert x in In(s, from) && forall p :: x !in In(t, p);
  }

  /** What a step does to the semaphores: a post of proceso_en_cola_ready for whoever enters READY and for whoever
      leaves EXEC, of executing_process for whoever enters EXEC and for each call served at once, of process_in_exit
      and process_in_new for whoever enters EXIT and NEW, and of finish_interrupted_process for whoever comes back
      interrupted for his end; and each of their threads takes one at each turn. */
  ghost predicate Counted(s: Kernel, e: Event, t: Kernel) {
    && t.readyPosts == s.readyPosts + One(Enters(s, t, Ready)) + One(Leaves(s, t, Exec)) - One(e.Dispatch?)
    && t.execPosts ==
       s.execPosts + One(Enters(s, t, Exec)) + One(e.Return? && IsServedAtOnce(e.reason)) - One(e.Send?)
    && t.exitPosts == s.exitPosts + One(Enters(s, t, Exit)) - One(e.Drain?)
    && t.newPosts == s.newPosts + One(Enters(s, t, New)) - One(e.StartAdmission?)
    && t.finishPosts == s.finishPosts + One(e.Return? && e.reason.InterruptFinish?) - One(e.FinishByHand?)
  }

  lemma CreateCounted(s: Kernel, x: Pid)
    requires Partition(s.lists, s.live) && x !in s.live
    ensures Counted(s, Create(x), Created(s, x))
  {
    assert x in In(Created(s, x), New) && x !in In(s, New);
    assert Traffic(s, Created(s, x), Nowhere, Somewhere(New));
  }

  lemma StayCounted(s: Kernel, e: Event, t: Kernel)
    requires Next(s, e, t) && (e.StartAdmission? || e.Send? || e.Discard?)
    ensures Counted(s, e, t)
  {
  }

  lemma ReturnTraffic(degree: nat, s: Kernel, r: Reason)
    requires Inv(degree, s) && s.running && In(s, Exec) != [] && Inv(degree, Returned(s, r))
    ensures var t := Returned(s, r);
      && (forall p :: Enters(s, t, p) <==> LeadsTo(r, p))
      && (Leaves(s, t, Exec) <==> exists p :: LeadsTo(r, p))
      && (forall p :: p != Exec ==> !Leaves(s, t, p))
  {
    var t, x := Returned(s, r), In(s, Exec)[0];
    ReturnMoves(degree, s, r);
    OutcomeLeads(r);
    match OutcomeOf(r)
    case Waits(place) =>
      assert LeadsTo(r, place);
      MoveTraffic(s, t, Exec, place, x);
    case Leaves =>
      assert LeadsTo(r, Exit);
      MoveTraffic(s, t, Exec, Exit, x);
    case _ =>
  }

  lemma DispatchCounted(degree: nat, s: Kernel, policy: Policy, priority: map<Pid, int>)
    requires Inv(degree, s) && s.readyPosts > 0 && Inv(degree, Dispatched(s, policy, priority))
    ensures Counted(s, Dispatch(policy, priority), Dispatched(s, policy, priority))
  {
    DispatchMoves(degree, s, policy, priority);
    if In(s, Exec) == [] && In(s, Ready) != [] {
      var x := In(s, Ready)[Chosen(policy, In(s, Ready), priority)];
      MoveTraffic(s, Dispatched(s, policy, priority), Ready, Exec, x);
    }
  }

  lemma WakeCounted(degree: nat, s: Kernel, p: Place, x: Pid)
    requires Inv(degree, s) && IsWaiting(p) && x in In(s, p) && Inv(degree, Woken(s, p, x))
    ensures Counted(s, Wake(p, x), Woken(s, p, x))
  {
    WakeMoves(degree, s, p, x);
    if x in s.marked && (p == Sleep || p == Interrupt) {
      LeaveTraffic(s, Woken(s, p, x), p, x);
    } else {
      MoveTraffic(s, Woken(s, p, x), p, Ready, x);
    }
  }

  lemma KillCounted(degree: nat, s: Kernel, p: Place, x: Pid)
    requires Inv(degree, s) && x in In(s, p) && Inv(degree, Killed(s, p, x))
    ensures Counted(s, Kill(p, x), Killed(s, p, x))
  {
    KillMoves(degree, s, p, x);
    if p == New || p == Ready || p == Exit || p.Blocked? {
      LeaveTraffic(s, Killed(s, p, x), p, x);
    }
  }

  lemma DrainCounted(degree: nat, s: Kernel)
    requires Inv(degree, s) && s.exitPosts > 0 && Inv(degree, Drained(s))
    ensures Counted(s, Drain, Drained(s))
  {
    if In(s, Exit) != [] {
      LeftOnly(s, Drained(s), Exit, In(s, Exit)[0]);
      LeaveTraffic(s, Drained(s), Exit, In(s, Exit)[0]);
    }
  }

  lemma ReturnCounted(degree: nat, s: Kernel, r: Reason)
    requires Inv(degree, s) && s.running && In(s, Exec) != [] && Inv(degree, Returned(s, r))
    ensures Counted(s, Return(r), Returned(s, r))
  {
    ReturnTraffic(degree, s, r);
    ReturnCounts(s, r);
    OutcomeLeads(r);
    assert Returned(s, r).readyPosts == s.readyPosts + One(OutcomeOf(r).Waits? || OutcomeOf(r).Leaves?);
    if OutcomeOf(r).Waits? {
      assert LeadsTo(r, OutcomeOf(r).place);
    } else if OutcomeOf(r).Leaves? {
      assert LeadsTo(r, Exit);
    }
  }

  lemma AdmitCounted(degree: nat, s: Kernel)
    requires Inv(degree, s) && s.grd > 0 && In(s, New) != [] && Inv(degree, Admitted(s))
    ensures Counted(s, Admit, Admitted(s))
  {
    AdmitMoves(degree, s);
    MoveTraffic(s, Admitted(s), New, Ready, In(s, New)[0]);
  }

  lemma FinishCounted(degree: nat, s: Kernel)
    requires Inv(degree, s) && s.finishPosts > 0 && In(s, Exec) != [] && Inv(degree, FinishedByHand(s))
    ensures Counted(s, FinishByHand, FinishedByHand(s))
  {
    LeftOnly(s, FinishedByHand(s), Exec, In(s, Exec)[0]);
    LeaveTraffic(s, FinishedByHand(s), Exec, In(s, Exec)[0]);
  }

  lemma NextCounted(degree: nat, s: Kernel, e: Event, t: Kernel)
    requires Inv(degree, s) && Next(s, e, t) && Inv(degree, t)
    ensures Counted(s, e, t)
  {
    match e
    case Create(pid) => CreateCounted(s, pid);
    case Admit => AdmitCounted(degree, s);
    case Dispatch(policy, priority) => DispatchCounted(degree, s, policy, priority);
    case Return(r) => ReturnCounted(degree, s, r);
    case Wake(p, pid) => WakeCounted(degree, s, p, pid);
    case Drain => DrainCounted(degree, s);
    case Kill(p, pid) => KillCounted(degree, s, p, pid);
    case FinishByHand => FinishCounted(degree, s);
    case StartAdmission | Send | Discard => StayCounted(s, e, t);
  }

  /** Over every run, no semaphore of a queue is posted more or less often than that. */
  lemma PostsAreCounted(degree: nat, events: seq<Event>, states: seq<Kernel>, i: nat)
    requires IsRun(degree, events, states) && i < |events|
    ensures Counted(states[i], events[i], states[i + 1])
  {
    QueuesStayInOrder(degree, events, states, i);
    QueuesStayInOrder(degree, events, states, i + 1);
    assert Next(states[i], events[i], states[i + 1]);
    NextCounted(degree, states[i], events[i], states[i + 1]);
  }

  /** Over every run, no post of executing_process is taken in vain: there is a process in EXEC, and the CPU gets it. */
  lemma SendFindsAProcess(degree: nat, events: seq<Event>, states: seq<Kernel>, i: nat)
    requires IsRun(degree, events, states) && i < |events| && events[i] == Send
    ensures In(states[i], Exec) != [] && states[i + 1].running && NobodyMoves(states[i], states[i + 1])
  {
    QueuesStayInOrder(degree, events, states, i);
    assert Next(states[i], events[i], states[i + 1]);
  }
}
