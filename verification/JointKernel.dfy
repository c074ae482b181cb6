/** The queues of the scheduler and the table of resources as one kernel: WAIT, SIGNAL, the wake-ups and every end of
    a process change both, and the scheduler learns from the table what a call leads to. */
module JointKernel {
  import opened Paging
  import S = Scheduler
  import R = Resources
  import D = Deadlocks

  datatype State = State(k: S.Kernel, t: R.Table)

  /** Plain: a step of the scheduler that no resource takes part in. Waits and Signals: the process of EXEC comes back
      with WAIT or SIGNAL. Unblocks: one turn of unblock_processes, with the resources it serves in the order of the
      dictionary. Ends: a step of the scheduler that eliminates a process. */
  datatype Event =
    | Creates(pid: Pid)
    | Plain(step: S.Event)
    | Waits(resource: string)
    | Signals(resource: string)
    | Unblocks(order: seq<string>)
    | Ends(step: S.Event, pid: Pid)

  predicate IsResourceCall(e: S.Event) {
    (e.Return? && (e.reason.WaitedFor? || e.reason.SignaledTo?)) || (e.Wake? && e.place.Blocked?)
  }

  /** What the scheduler is told about a WAIT and a SIGNAL of the process of EXEC. */
  function WaitReason(t: R.Table, r: string): S.Reason {
    S.WaitedFor(r, r in t.blocks, r in t.blocks && t.blocks[r].instances > 0)
  }

  function SignalReason(t: R.Table, pid: Pid, r: string): S.Reason {
    S.SignaledTo(r in t.blocks, r in t.blocks && pid in t.blocks[r].pids)
  }

  /** The heads of these resources' lists go to READY, one after the other. */
  function WokenAll(k: S.Kernel, order: seq<string>): S.Kernel
    decreases |order|
  {
    if order == [] || S.In(k, S.Blocked(order[0])) == [] then k
    else WokenAll(S.Woken(k, S.Blocked(order[0]), S.In(k, S.Blocked(order[0]))[0]), order[1..])
  }

  predicate IsServed(t: R.Table, r: string) {
    r in t.blocks && t.blocks[r].instances >= 1 && t.blocks[r].blocked != []
  }

  predicate IsExhausted(t: R.Table, r: string) {
    r in t.blocks && t.blocks[r].instances <= 0
  }

  predicate ServesAll(t: R.Table, order: seq<string>) {
    && NoDuplicates(order)
    && (forall r :: r in order ==> IsServed(t, r))
    && (forall r :: r in t.blocks && IsServed(t, r) ==> r in order)
  }

  ghost predicate Next(s: State, e: Event, u: State) {
    match e
    case Creates(pid) => S.Next(s.k, S.Create(pid), u.k) && u.t == s.t.(live := s.t.live + {pid})
    case Plain(step) =>
      !step.Create? && !IsResourceCall(step) && S.Next(s.k, step, u.k) && u.k.live == s.k.live && u.t == s.t
    case Waits(r) =>
      && S.In(s.k, S.Exec) != [] && S.Next(s.k, S.Return(WaitReason(s.t, r)), u.k)
      && u.t == if r in s.t.blocks then R.Wait(s.t, S.In(s.k, S.Exec)[0], r) else s.t
    case Signals(r) =>
      && S.In(s.k, S.Exec) != []
      && var pid := S.In(s.k, S.Exec)[0];
      && S.Next(s.k, S.Return(SignalReason(s.t, pid, r)), u.k)
      && u.t == if r in s.t.blocks && pid in s.t.blocks[r].pids then R.Signal(s.t, pid, r) else s.t
    case Unblocks(order) =>
      s.t.posts > 0 && ServesAll(s.t, order) && u.k == WokenAll(s.k, order) && u.t == R.Unblock(s.t)
    case Ends(step, pid) =>
      && !step.Create? && !IsResourceCall(step) && S.Next(s.k, step, u.k)
      && pid in s.k.live && u.k.live == s.k.live - {pid} && u.t == R.Remove(s.t, pid)
  }

  ghost predicate IsRun(degree: nat, totals: map<string, nat>, events: seq<Event>, states: seq<State>) {
    && |states| == |events| + 1
    && S.Initial(degree, states[0].k) && R.Initial(totals, states[0].t)
    && (forall i :: 0 <= i < |events| ==> Next(states[i], events[i], states[i + 1]))
  }

  // ----- what every run keeps

  /** Who the scheduler holds to be blocked for a resource is who is in its list, in the same order; and both know the
      same processes. */
  ghost predicate Linked(s: State) {
    && s.t.live == s.k.live
    && (forall r :: r in s.t.blocks ==> S.In(s.k, S.Blocked(r)) == s.t.blocks[r].blocked)
    && (forall r :: r !in s.t.blocks ==> S.In(s.k, S.Blocked(r)) == [])
  }

  ghost predicate Inv(degree: nat, totals: map<string, nat>, s: State) {
    S.Inv(degree, s.k) && R.Inv(totals, s.t) && Linked(s)
  }

  /** What a step of the table is called in the model of the resources; a plain step does not touch it. */
  function TableEvent(s: State, e: Event): R.Event
    requires e.Waits? || e.Signals? ==> S.In(s.k, S.Exec) != []
  {
    match e
    case Creates(pid) => R.Started(pid)
    case Waits(r) => R.Waited(S.In(s.k, S.Exec)[0], r)
    case Signals(r) => R.Signaled(S.In(s.k, S.Exec)[0], r)
    case Unblocks(_) => R.Unblocking
    case Ends(_, pid) => R.Removed(pid)
    case Plain(_) => R.Unblocking
  }

  /** The process of EXEC is alive and in no list, so the table may take its call. */
  lemma ExecIsNotBlocked(degree: nat, totals: map<string, nat>, s: State)
    requires Inv(degree, totals, s) && S.In(s.k, S.Exec) != []
    ensures S.In(s.k, S.Exec)[0] in s.t.live && !R.IsBlocked(s.t, S.In(s.k, S.Exec)[0])
  {
    var pid := S.In(s.k, S.Exec)[0];
    assert pid in S.In(s.k, S.Exec);
    forall r | r in s.t.blocks ensures pid !in s.t.blocks[r].blocked {
      assert S.In(s.k, S.Blocked(r)) == s.t.blocks[r].blocked;
    }
  }

  /** Each step is a step of the table as the model of the resources has it, guards included. */
  lemma TableSteps(degree: nat, totals: map<string, nat>, s: State, e: Event, u: State)
    requires Inv(degree, totals, s) && Next(s, e, u) && !e.Plain?
    ensures R.Next(s.t, TableEvent(s, e), u.t)
  {
    match e
    case Creates(pid) => assert pid !in s.k.live;
    case Waits(r) => ExecIsNotBlocked(degree, totals, s);
    case Signals(r) => ExecIsNotBlocked(degree, totals, s);
    case Unblocks(_) =>
    case Ends(_, pid) =>
  }

  // ----- the lists of the blocked

  lemma BlockedUntouched(k: S.Kernel, e: S.Event, l: S.Kernel, r: string)
    requires S.Next(k, e, l) && !IsResourceCall(e) && !(e.Kill? && e.place.Blocked?)
    ensures S.In(l, S.Blocked(r)) == S.In(k, S.Blocked(r))
  {
    match e
    case Return(reason) => ReturnUntouched(k, reason, r);
    case Wake(p, pid) =>
    case Kill(p, pid) =>
    case _ =>
  }

  lemma ReturnUntouched(k: S.Kernel, reason: S.Reason, r: string)
    requires S.In(k, S.Exec) != [] && !reason.WaitedFor?
    ensures S.In(S.Returned(k, reason), S.Blocked(r)) == S.In(k, S.Blocked(r))
  {
  }

  lemma WaitBlocks(k: S.Kernel, r: string, known: bool, free: bool, u: string)
    requires S.In(k, S.Exec) != []
    ensures S.In(S.Returned(k, S.WaitedFor(r, known, free)), S.Blocked(u)) ==
            S.In(k, S.Blocked(u)) + if known && !free && u == r then [S.In(k, S.Exec)[0]] else []
  {
  }

  /** A process that is eliminated leaves the list it is blocked in, if any. */
  lemma EndUnblocks(degree: nat, k: S.Kernel, e: S.Event, l: S.Kernel, pid: Pid, r: string)
    requires S.Inv(degree, k) && S.Next(k, e, l) && !e.Create? && !IsResourceCall(e)
    requires pid in k.live && l.live == k.live - {pid}
    ensures S.In(l, S.Blocked(r)) == RemoveFirst(S.In(k, S.Blocked(r)), pid)
  {
    if e.Kill? && e.place.Blocked? {
      assert e.pid in k.live && l.live == k.live - {e.pid};
      assert e.pid == pid;
      if e.place.resource != r {
        assert pid !in S.In(k, S.Blocked(r));
        R.RemoveFirstAbsent(S.In(k, S.Blocked(r)), pid);
      }
    } else {
      BlockedUntouched(k, e, l, r);
      EndedElsewhere(degree, k, e, l, pid, r);
      R.RemoveFirstAbsent(S.In(k, S.Blocked(r)), pid);
    }
  }

  lemma EndedElsewhere(degree: nat, k: S.Kernel, e: S.Event, l: S.Kernel, pid: Pid, r: string)
    requires S.Inv(degree, k) && S.Next(k, e, l) && pid in k.live && l.live == k.live - {pid}
    requires S.In(l, S.Blocked(r)) == S.In(k, S.Blocked(r))
    ensures pid !in S.In(k, S.Blocked(r))
  {
    S.NextKeeps(degree, k, e, l);
    assert pid !in l.live;
  }

  lemma HeadLeaves(k: S.Kernel, r: string, u: string)
    requires S.In(k, S.Blocked(r)) != []
    ensures var l := S.Woken(k, S.Blocked(r), S.In(k, S.Blocked(r))[0]);
      S.In(l, S.Blocked(u)) == if u == r then S.In(k, S.Blocked(u))[1..] else S.In(k, S.Blocked(u))
  {
  }

  lemma HeadWoken(degree: nat, k: S.Kernel, r: string)
    requires S.Inv(degree, k) && S.In(k, S.Blocked(r)) != []
    ensures var l := S.Woken(k, S.Blocked(r), S.In(k, S.Blocked(r))[0]);
      && S.Inv(degree, l) && l.live == k.live
      && (forall u :: S.In(l, S.Blocked(u)) == if u == r then S.In(k, S.Blocked(u))[1..] else S.In(k, S.Blocked(u)))
  {
    var l := S.Woken(k, S.Blocked(r), S.In(k, S.Blocked(r))[0]);
    S.WakeKeeps(degree, k, S.Blocked(r), S.In(k, S.Blocked(r))[0]);
    forall u ensures S.In(l, S.Blocked(u)) == if u == r then S.In(k, S.Blocked(u))[1..] else S.In(k, S.Blocked(u)) {
      HeadLeaves(k, r, u);
    }
  }

  /** The heads of all the lists in the order wake up, and nobody else. */
  lemma {:induction false} AllWoken(degree: nat, k: S.Kernel, order: seq<string>)
    requires S.Inv(degree, k) && NoDuplicates(order) && forall r :: r in order ==> S.In(k, S.Blocked(r)) != []
    ensures var l := WokenAll(k, order);
      && S.Inv(degree, l) && l.live == k.live
      && (forall u :: S.In(l, S.Blocked(u)) == if u in order then S.In(k, S.Blocked(u))[1..] else S.In(k, S.Blocked(u)))
    decreases |order|
  {
    if order != [] {
      var r := order[0];
      assert r in order;
      HeadWoken(degree, k, r);
      var l := S.Woken(k, S.Blocked(r), S.In(k, S.Blocked(r))[0]);
      assert order == [r] + order[1..] && r !in order[1..];
      AllWoken(degree, l, order[1..]);
    }
  }

  // ----- one step

  lemma LinkedAfterWait(s: State, pid: Pid, r: string, u: State)
    requires Linked(s) && u.k.live == s.k.live && u.t == if r in s.t.blocks then R.Wait(s.t, pid, r) else s.t
    requires forall v ::
      S.In(u.k, S.Blocked(v)) == S.In(s.k, S.Blocked(v)) + if v == r && IsExhausted(s.t, r) then [pid] else []
    ensures Linked(u)
  {
  }

  lemma WaitKeepsLinked(s: State, r: string, u: State)
    requires Linked(s) && Next(s, Waits(r), u)
    ensures Linked(u)
  {
    var pid, reason := S.In(s.k, S.Exec)[0], WaitReason(s.t, r);
    forall v
      ensures S.In(u.k, S.Blocked(v)) ==
        S.In(s.k, S.Blocked(v)) + if v == r && IsExhausted(s.t, r) then [pid] else []
    {
      WaitBlocks(s.k, r, reason.known, reason.free, v);
    }
    LinkedAfterWait(s, pid, r, u);
  }

  lemma LinkedWhenUntouched(s: State, u: State)
    requires Linked(s) && u.k.live == s.k.live && u.t.live == s.t.live && u.t.blocks.Keys == s.t.blocks.Keys
    requires forall v :: S.In(u.k, S.Blocked(v)) == S.In(s.k, S.Blocked(v))
    requires forall v :: v in s.t.blocks ==> u.t.blocks[v].blocked == s.t.blocks[v].blocked
    ensures Linked(u)
  {
  }

  lemma SignalKeepsLinked(s: State, r: string, u: State)
    requires Linked(s) && Next(s, Signals(r), u)
    ensures Linked(u)
  {
    var reason := SignalReason(s.t, S.In(s.k, S.Exec)[0], r);
    forall v ensures S.In(u.k, S.Blocked(v)) == S.In(s.k, S.Blocked(v)) {
      ReturnUntouched(s.k, reason, v);
    }
    LinkedWhenUntouched(s, u);
  }

  lemma UnblockKeepsLinked(degree: nat, totals: map<string, nat>, s: State, order: seq<string>, u: State)
    requires Inv(degree, totals, s) && Next(s, Unblocks(order), u)
    ensures S.Inv(degree, u.k) && Linked(u)
  {
    forall r | r in order ensures S.In(s.k, S.Blocked(r)) != [] {
      assert IsServed(s.t, r);
    }
    AllWoken(degree, s.k, order);
    forall v | v in u.t.blocks ensures S.In(u.k, S.Blocked(v)) == u.t.blocks[v].blocked {
      assert v in order <==> IsServed(s.t, v);
    }
  }

  lemma KillInListEnds(degree: nat, k: S.Kernel, e: S.Event, l: S.Kernel)
    requires S.Inv(degree, k) && S.Next(k, e, l)
    ensures e.Kill? && e.place.Blocked? ==> l.live != k.live
  {
    if e.Kill? && e.place.Blocked? {
      assert e.pid in k.live;
    }
  }

  lemma PlainKeepsLinked(degree: nat, s: State, step: S.Event, u: State)
    requires S.Inv(degree, s.k) && Linked(s) && Next(s, Plain(step), u)
    ensures Linked(u)
  {
    KillInListEnds(degree, s.k, step, u.k);
    forall v ensures S.In(u.k, S.Blocked(v)) == S.In(s.k, S.Blocked(v)) {
      BlockedUntouched(s.k, step, u.k, v);
    }
    LinkedWhenUntouched(s, u);
  }

  lemma LinkedAfterEnd(s: State, pid: Pid, u: State)
    requires Linked(s) && u.k.live == s.k.live - {pid} && u.t == R.Remove(s.t, pid)
    requires forall v :: S.In(u.k, S.Blocked(v)) == RemoveFirst(S.In(s.k, S.Blocked(v)), pid)
    ensures Linked(u)
  {
  }

  lemma EndKeepsLinked(degree: nat, s: State, step: S.Event, pid: Pid, u: State)
    requires S.Inv(degree, s.k) && Linked(s) && Next(s, Ends(step, pid), u)
    ensures Linked(u)
  {
    forall v ensures S.In(u.k, S.Blocked(v)) == RemoveFirst(S.In(s.k, S.Blocked(v)), pid) {
      EndUnblocks(degree, s.k, step, u.k, pid, v);
    }
    LinkedAfterEnd(s, pid, u);
  }

  lemma CreateKeepsLinked(s: State, pid: Pid, u: State)
    requires Linked(s) && Next(s, Creates(pid), u)
    ensures Linked(u)
  {
    forall v ensures S.In(u.k, S.Blocked(v)) == S.In(s.k, S.Blocked(v)) {
      BlockedUntouched(s.k, S.Create(pid), u.k, v);
    }
    assert u.k.live == s.k.live + {pid};
  }

  /** The step of the scheduler, unless it is a turn of unblock_processes. */
  function SchedulerEvent(s: State, e: Event): S.Event
    requires e.Waits? || e.Signals? ==> S.In(s.k, S.Exec) != []
  {
    match e
    case Creates(pid) => S.Create(pid)
    case Plain(step) => step
    case Waits(r) => S.Return(WaitReason(s.t, r))
    case Signals(r) => S.Return(SignalReason(s.t, S.In(s.k, S.Exec)[0], r))
    case Ends(step, _) => step
    case Unblocks(_) => S.Send
  }

  lemma LinkedKept(degree: nat, s: State, e: Event, u: State)
    requires S.Inv(degree, s.k) && Linked(s) && Next(s, e, u) && !e.Unblocks?
    ensures Linked(u)
  {
    match e
    case Creates(pid) => CreateKeepsLinked(s, pid, u);
    case Plain(step) => PlainKeepsLinked(degree, s, step, u);
    case Waits(r) => WaitKeepsLinked(s, r, u);
    case Signals(r) => SignalKeepsLinked(s, r, u);
    case Ends(step, pid) => EndKeepsLinked(degree, s, step, pid, u);
  }

  lemma NextKeeps(degree: nat, totals: map<string, nat>, s: State, e: Event, u: State)
    requires Inv(degree, totals, s) && Next(s, e, u)
    ensures Inv(degree, totals, u)
  {
    if !e.Plain? {
      TableSteps(degree, totals, s, e, u);
      R.NextKeeps(totals, s.t, TableEvent(s, e), u.t);
    }
    if e.Unblocks? {
      UnblockKeepsLinked(degree, totals, s, e.order, u);
    } else {
      S.NextKeeps(degree, s.k, SchedulerEvent(s, e), u.k);
      LinkedKept(degree, s, e, u);
    }
  }

  // ----- whole runs

  lemma InitialLinked(degree: nat, totals: map<string, nat>, s: State)
    requires S.Initial(degree, s.k) && R.Initial(totals, s.t)
    ensures Inv(degree, totals, s)
  {
    var events: seq<R.Event>, states := [], [s.t];
    R.ResourcesAreConserved(totals, events, states, 0);
  }

  /** In every state of every run of the whole kernel, the scheduler and the resources agree on who is blocked where
      and in which order, and each keeps what it keeps alone. */
  lemma {:induction false} KernelStaysLinked(degree: nat, totals: map<string, nat>, events: seq<Event>,
                                             states: seq<State>, i: nat)
    requires IsRun(degree, totals, events, states) && i <= |events|
    ensures Inv(degree, totals, states[i])
  {
    if i == 0 {
      InitialLinked(degree, totals, states[0]);
    } else {
      KernelStaysLinked(degree, totals, events, states, i - 1);
      NextKeeps(degree, totals, states[i - 1], events[i - 1], states[i]);
    }
  }

  /** The table of every run of the whole kernel is the table of a run of the resources alone, so all that is proved
      there holds here. */
  lemma {:induction false} TableRuns(degree: nat, totals: map<string, nat>, events: seq<Event>, states: seq<State>,
                                     i: nat)
    returns (calls: seq<R.Event>, tables: seq<R.Table>)
    requires IsRun(degree, totals, events, states) && i <= |events|
    ensures R.IsRun(totals, calls, tables) && tables[|calls|] == states[i].t
  {
    if i == 0 {
      calls, tables := [], [states[0].t];
    } else {
      calls, tables := TableRuns(degree, totals, events, states, i - 1);
      KernelStaysLinked(degree, totals, events, states, i - 1);
      var s, e, u := states[i - 1], events[i - 1], states[i];
      assert Next(s, e, u);
      if !e.Plain? {
        TableSteps(degree, totals, s, e, u);
        R.RunGoesOn(totals, calls, tables, s.t, TableEvent(s, e), u.t);
        calls, tables := calls + [TableEvent(s, e)], tables + [u.t];
      }
    }
  }

  /** The wake-ups of one turn of unblock_processes, one after the other. */
  lemma {:induction false} WakesInOrder(degree: nat, steps: seq<S.Event>, kernels: seq<S.Kernel>, k: S.Kernel,
                                        order: seq<string>)
    returns (longer: seq<S.Event>, after: seq<S.Kernel>)
    requires S.IsRun(degree, steps, kernels) && kernels[|steps|] == k
    ensures S.IsRun(degree, longer, after) && after[|longer|] == WokenAll(k, order)
    decreases |order|
  {
    longer, after := steps, kernels;
    if order != [] && S.In(k, S.Blocked(order[0])) != [] {
      var p := S.Blocked(order[0]);
      var e, l := S.Wake(p, S.In(k, p)[0]), S.Woken(k, p, S.In(k, p)[0]);
      S.RunGoesOn(degree, steps, kernels, k, e, l);
      longer, after := WakesInOrder(degree, steps + [e], kernels + [l], l, order[1..]);
    }
  }

  /** And its queues are those of a run of the scheduler alone, in which every WAIT and SIGNAL is told the truth. */
  lemma {:induction false} SchedulerRuns(degree: nat, totals: map<string, nat>, events: seq<Event>,
                                         states: seq<State>, i: nat)
    returns (steps: seq<S.Event>, kernels: seq<S.Kernel>)
    requires IsRun(degree, totals, events, states) && i <= |events|
    ensures S.IsRun(degree, steps, kernels) && kernels[|steps|] == states[i].k
  {
    if i == 0 {
      steps, kernels := [], [states[0].k];
    } else {
      steps, kernels := SchedulerRuns(degree, totals, events, states, i - 1);
      var s, e, u := states[i - 1], events[i - 1], states[i];
      assert Next(s, e, u);
      if e.Unblocks? {
        steps, kernels := WakesInOrder(degree, steps, kernels, s.k, e.order);
      } else {
        S.RunGoesOn(degree, steps, kernels, s.k, SchedulerEvent(s, e), u.k);
        steps, kernels := steps + [SchedulerEvent(s, e)], kernels + [u.k];
      }
    }
  }

  // ----- deadlocked processes never run

  ghost predicate NoMemberEnds(events: seq<Event>, i: nat, j: nat, d: set<Pid>)
    requires i <= j <= |events|
  {
    forall k :: i <= k < j && events[k].Ends? ==> events[k].pid !in d
  }

  lemma DeadlockStep(degree: nat, totals: map<string, nat>, s: State, e: Event, u: State, d: set<Pid>)
    requires Inv(degree, totals, s) && Next(s, e, u) && D.Deadlocked(s.t, d) && (e.Ends? ==> e.pid !in d)
    ensures D.Deadlocked(u.t, d)
  {
    if !e.Plain? {
      TableSteps(degree, totals, s, e, u);
      D.DeadlockStays(totals, s.t, TableEvent(s, e), u.t, d);
    }
  }

  lemma {:induction false} DeadlockKept(degree: nat, totals: map<string, nat>, events: seq<Event>, states: seq<State>,
                                        i: nat, j: nat, d: set<Pid>)
    requires IsRun(degree, totals, events, states) && i <= j <= |events| && D.Deadlocked(states[i].t, d)
    requires NoMemberEnds(events, i, j, d)
    ensures D.Deadlocked(states[j].t, d)
  {
    if i < j {
      DeadlockKept(degree, totals, events, states, i, j - 1, d);
      KernelStaysLinked(degree, totals, events, states, j - 1);
      DeadlockStep(degree, totals, states[j - 1], events[j - 1], states[j], d);
    }
  }

  /** Until one of them is removed, the members of a deadlock stay in the lists of their resources: none is ready and
      none runs again, in any continuation of any run. */
  lemma DeadlockedNeverRun(degree: nat, totals: map<string, nat>, events: seq<Event>, states: seq<State>, i: nat,
                           j: nat, d: set<Pid>, x: Pid) returns (r: string)
    requires IsRun(degree, totals, events, states) && i <= j <= |events| && D.Deadlocked(states[i].t, d) && x in d
    requires NoMemberEnds(events, i, j, d)
    ensures x in S.In(states[j].k, S.Blocked(r)) && S.PlaceOf(states[j].k, x) == S.Somewhere(S.Blocked(r))
  {
    DeadlockKept(degree, totals, events, states, i, j, d);
    KernelStaysLinked(degree, totals, events, states, j);
    r :| D.Stuck(states[j].t, d, x, r);
    S.PlaceIs(states[j].k, x, S.Blocked(r));
  }

  // ----- whom nobody wakes

  lemma {:induction false} WakeUpsKept(degree: nat, totals: map<string, nat>, events: seq<Event>, states: seq<State>,
                                       i: nat)
    requires IsRun(degree, totals, events, states) && i <= |events|
    requires forall k :: 0 <= k < i && events[k].Ends? ==> R.Modest(states[k].t, events[k].pid)
    ensures R.NoLostWakeUp(states[i].t)
  {
    if i == 0 {
      R.NoneLostAtFirst(totals, states[0].t);
    } else {
      WakeUpsKept(degree, totals, events, states, i - 1);
      KernelStaysLinked(degree, totals, events, states, i - 1);
      var s, e, u := states[i - 1], events[i - 1], states[i];
      assert Next(s, e, u);
      if !e.Plain? {
        TableSteps(degree, totals, s, e, u);
        R.NextKeepsWakeUps(totals, s.t, TableEvent(s, e), u.t);
      }
    }
  }

  /** As long as no removed process holds more instances of a resource than it holds resources, with no wake-up
      pending the scheduler keeps a process blocked only for a resource that has no free instance. */
  lemma BlockedForAReason(degree: nat, totals: map<string, nat>, events: seq<Event>, states: seq<State>, i: nat,
                          r: string)
    requires IsRun(degree, totals, events, states) && i <= |events|
    requires forall k :: 0 <= k < i && events[k].Ends? ==> R.Modest(states[k].t, events[k].pid)
    requires states[i].t.posts == 0 && S.In(states[i].k, S.Blocked(r)) != []
    ensures r in states[i].t.blocks && states[i].t.blocks[r].instances == 0
  {
    KernelStaysLinked(degree, totals, events, states, i);
    WakeUpsKept(degree, totals, events, states, i);
    R.QuietMeansNoneWaits(totals, states[i].t);
  }

  // ----- what a call leads to

  lemma ReturnStep(degree: nat, k: S.Kernel, r: S.Reason, l: S.Kernel)
    requires S.Inv(degree, k) && S.Next(k, S.Return(r), l)
    ensures S.In(k, S.Exec) != [] && l.execPosts == k.execPosts + S.One(S.IsServedAtOnce(r))
    ensures var x := S.In(k, S.Exec)[0];
      && (S.IsServedAtOnce(r) ==> S.In(l, S.Exec) == [x])
      && (forall p :: S.LeadsTo(r, p) ==> S.In(l, p) == S.In(k, p) + [x] && S.In(l, S.Exec) == [])
  {
    S.ReturnCounts(k, r);
    S.OutcomeLeads(r);
    S.ReturnArrives(degree, k, r, S.Exit);
    forall p | S.LeadsTo(r, p)
      ensures S.In(l, p) == S.In(k, p) + [S.In(k, S.Exec)[0]] && S.In(l, S.Exec) == []
    {
      S.ReturnArrives(degree, k, r, p);
    }
  }

  /** The process goes last in that queue, and EXEC is empty. */
  predicate GoesTo(k: S.Kernel, l: S.Kernel, x: Pid, p: S.Place) {
    S.In(l, p) == S.In(k, p) + [x] && S.In(l, S.Exec) == []
  }

  /** The process stays in EXEC and is sent to the CPU again. */
  predicate GoesOn(k: S.Kernel, l: S.Kernel, x: Pid) {
    S.In(l, S.Exec) == [x] && l.execPosts == k.execPosts + 1
  }

  /** The process gets that many instances of the resource, and no other resource changes. */
  ghost predicate Gets(t: R.Table, v: R.Table, x: Pid, r: string, n: int)
    requires r in t.blocks
  {
    && v.blocks.Keys == t.blocks.Keys && (forall q :: q in t.blocks && q != r ==> v.blocks[q] == t.blocks[q])
    && v.blocks[r].instances == t.blocks[r].instances - n && R.Holding(v, x, r) == R.Holding(t, x, r) + n
    && (forall y :: y != x ==> R.Holding(v, y, r) == R.Holding(t, y, r))
  }

  lemma QueuesAfterWait(degree: nat, k: S.Kernel, r: string, known: bool, free: bool, l: S.Kernel)
    requires S.Inv(degree, k) && S.Next(k, S.Return(S.WaitedFor(r, known, free)), l)
    ensures S.In(k, S.Exec) != []
    ensures var x := S.In(k, S.Exec)[0];
      if !known then GoesTo(k, l, x, S.Exit) else if free then GoesOn(k, l, x) else GoesTo(k, l, x, S.Blocked(r))
  {
    var reason := S.WaitedFor(r, known, free);
    ReturnStep(degree, k, reason, l);
    assert !known ==> S.LeadsTo(reason, S.Exit);
    assert known && !free ==> S.LeadsTo(reason, S.Blocked(r));
  }

  lemma QueuesAfterSignal(degree: nat, k: S.Kernel, known: bool, holds: bool, l: S.Kernel)
    requires S.Inv(degree, k) && S.Next(k, S.Return(S.SignaledTo(known, holds)), l)
    ensures S.In(k, S.Exec) != []
    ensures var x := S.In(k, S.Exec)[0]; if known && holds then GoesOn(k, l, x) else GoesTo(k, l, x, S.Exit)
  {
    var reason := S.SignaledTo(known, holds);
    ReturnStep(degree, k, reason, l);
    assert !(known && holds) ==> S.LeadsTo(reason, S.Exit);
  }

  lemma TableAfterWait(t: R.Table, x: Pid, r: string)
    requires r in t.blocks
    ensures Gets(t, R.Wait(t, x, r), x, r, if t.blocks[r].instances > 0 then 1 else 0)
  {
  }

  lemma TableAfterSignal(totals: map<string, nat>, t: R.Table, x: Pid, r: string)
    requires R.Inv(totals, t) && r in t.blocks && x in t.blocks[r].pids
    ensures R.Holding(t, x, r) > 0 && Gets(t, R.Signal(t, x, r), x, r, -1)
  {
    R.SignalOutcome(totals, t, x, r);
  }

  /** Over every run, what a WAIT leads to: EXIT if the resource is unknown, one instance and the CPU again if one is
      free, and otherwise the end of the queue of the resource. */
  lemma WaitLeadsTo(degree: nat, totals: map<string, nat>, events: seq<Event>, states: seq<State>, i: nat, r: string)
    requires IsRun(degree, totals, events, states) && i < |events| && events[i] == Waits(r)
    ensures S.In(states[i].k, S.Exec) != []
    ensures var s, u, x := states[i], states[i + 1], S.In(states[i].k, S.Exec)[0];
      if r !in s.t.blocks then GoesTo(s.k, u.k, x, S.Exit) && u.t == s.t
      else if s.t.blocks[r].instances > 0 then GoesOn(s.k, u.k, x) && Gets(s.t, u.t, x, r, 1)
      else GoesTo(s.k, u.k, x, S.Blocked(r)) && Gets(s.t, u.t, x, r, 0)
  {
    KernelStaysLinked(degree, totals, events, states, i);
    assert Next(states[i], events[i], states[i + 1]);
    var s, u := states[i], states[i + 1];
    QueuesAfterWait(degree, s.k, r, r in s.t.blocks, r in s.t.blocks && s.t.blocks[r].instances > 0, u.k);
    if r in s.t.blocks {
      TableAfterWait(s.t, S.In(s.k, S.Exec)[0], r);
    }
  }

  /** And a SIGNAL: the instance goes back, one wake-up is posted and the process goes on if it holds one; otherwise it
      goes to EXIT. */
  lemma SignalLeadsTo(degree: nat, totals: map<string, nat>, events: seq<Event>, states: seq<State>, i: nat, r: string)
    requires IsRun(degree, totals, events, states) && i < |events| && events[i] == Signals(r)
    ensures S.In(states[i].k, S.Exec) != []
    ensures var s, u, x := states[i], states[i + 1], S.In(states[i].k, S.Exec)[0];
      if r in s.t.blocks && R.Holding(s.t, x, r) > 0
      then GoesOn(s.k, u.k, x) && Gets(s.t, u.t, x, r, -1) && u.t.posts == s.t.posts + 1
      else GoesTo(s.k, u.k, x, S.Exit) && u.t == s.t
  {
    KernelStaysLinked(degree, totals, events, states, i);
    assert Next(states[i], events[i], states[i + 1]);
    var s, u, x := states[i], states[i + 1], S.In(states[i].k, S.Exec)[0];
    QueuesAfterSignal(degree, s.k, r in s.t.blocks, r in s.t.blocks && x in s.t.blocks[r].pids, u.k);
    if r in s.t.blocks && x in s.t.blocks[r].pids {
      TableAfterSignal(totals, s.t, x, r);
    }
  }
}
