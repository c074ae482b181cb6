/** The kernel's process queues and semaphores: every turn of a thread is one step on a Kernel value. */
module Scheduler {
  import opened Paging

  /** Where a process can be. FileWait and FileCall are the threads that wait for a lock and for the file system;
      Fault is the part of lista_estado_INTERRUPT whose pages are being loaded. */
  datatype Place =
    | New | Ready | Exec | Exit
    | Blocked(resource: string) | Sleep | Interrupt | Fault | FileWait | FileCall

  type Lists = map<Place, seq<Pid>>

  /** newPosts, grd, readyPosts, execPosts, exitPosts and finishPosts are the values of process_in_new, grd_mult,
      proceso_en_cola_ready, executing_process, process_in_exit and finish_interrupted_process. admitting: the long-term
      scheduler has found NEW not empty and waits for grd_mult. running: the CPU has the process of EXEC. finishing: the
      process the console waits to finish. message: the interrupt for it still lies in the CPU's interrupt socket.
      marked: the PCBs with end_state MANUAL. live: the processes not yet eliminated. next: sig_PID. */
  datatype Kernel = Kernel(
    lists: Lists, live: set<Pid>, marked: set<Pid>,
    newPosts: nat, grd: nat, readyPosts: nat, execPosts: nat, exitPosts: nat, finishPosts: nat,
    admitting: bool, running: bool, finishing: set<Pid>, message: bool, next: Pid)

  function At(lists: Lists, p: Place): seq<Pid> {
    if p in lists then lists[p] else []
  }

  function In(s: Kernel, p: Place): seq<Pid> {
    At(s.lists, p)
  }

  function Taken(lists: Lists, p: Place, pid: Pid): Lists {
    lists[p := RemoveFirst(At(lists, p), pid)]
  }

  function Put(lists: Lists, p: Place, pid: Pid): Lists {
    lists[p := At(lists, p) + [pid]]
  }

  function Moved(lists: Lists, from: Place, to: Place, pid: Pid): Lists {
    Put(Taken(lists, from, pid), to, pid)
  }

  // ----- dispatching

  datatype Policy = FifoOrder | RoundRobin | Priorities

  /** list_get_minimum with _min_priority: the first of the entries with the least priority value. */
  function MinIndex(queue: seq<Pid>, priority: map<Pid, int>): (r: nat)
    requires queue != []
    ensures r < |queue|
  {
    if |queue| == 1 then 0
    else
      var m := MinIndex(queue[..|queue| - 1], priority);
      if Value(priority, queue[m]) <= Value(priority, queue[|queue| - 1]) then m else |queue| - 1
  }

  function Value(priority: map<Pid, int>, pid: Pid): int {
    if pid in priority then priority[pid] else 0
  }

  /** The place in READY of the process that is dispatched. */
  function Chosen(policy: Policy, queue: seq<Pid>, priority: map<Pid, int>): (r: nat)
    requires queue != []
    ensures r < |queue|
  {
    if policy == Priorities && |queue| > 1 then MinIndex(queue, priority) else 0
  }

  // ----- what the CPU returns with, and what execute_process and its handlers do about it

  datatype Mode = ReadMode | WriteMode | OtherMode

  /** The reasons in the PCB, with what the handler finds out: whether the resource is known, free or held, whether the
      opening has to wait, whether the write goes through. */
  datatype Reason =
    | FSeek | FClose | FTruncate | FRead
    | FWrite(forwarded: bool)
    | FOpen(mode: Mode, mustWait: bool)
    | Interrupted | Slept | InterruptFinish | Finished | PageFaulted
    | WaitedFor(resource: string, known: bool, free: bool)
    | SignaledTo(known: bool, holds: bool)

  datatype Outcome = GoesOn | Waits(place: Place) | Leaves | AwaitsFinish | Forgotten

  function OutcomeOf(r: Reason): Outcome {
    match r
    case FSeek | FClose => GoesOn
    case FTruncate | FRead => Waits(FileCall)
    case FWrite(forwarded) => if forwarded then Waits(FileCall) else Leaves
    case FOpen(mode, mustWait) => if mode == OtherMode then Forgotten else if mustWait then Waits(FileWait) else GoesOn
    case Interrupted => Waits(Interrupt)
    case Slept => Waits(Sleep)
    case InterruptFinish => AwaitsFinish
    case Finished => Leaves
    case PageFaulted => Waits(Fault)
    case WaitedFor(resource, known, free) =>
      if !known then Leaves else if free then GoesOn else Waits(Blocked(resource))
    case SignaledTo(known, holds) => if known && holds then GoesOn else Leaves
  }

  // ----- the steps

  function Created(s: Kernel, pid: Pid): Kernel {
    s.(lists := Put(s.lists, New, pid), live := s.live + {pid}, newPosts := s.newPosts + 1, next := s.next + 1)
  }

  /** planificador_largo_plazo takes a post of process_in_new. */
  function AdmissionStarted(s: Kernel): Kernel
    requires s.newPosts > 0
  {
    s.(newPosts := s.newPosts - 1, admitting := In(s, New) != [])
  }

  /** It takes a place of grd_mult, and the head of NEW becomes ready. */
  function Admitted(s: Kernel): Kernel
    requires s.grd > 0 && In(s, New) != []
  {
    s.(lists := Moved(s.lists, New, Ready, In(s, New)[0]), grd := s.grd - 1, readyPosts := s.readyPosts + 1,
      admitting := false)
  }

  /** A turn of the short-term scheduler. */
  function Dispatched(s: Kernel, policy: Policy, priority: map<Pid, int>): Kernel
    requires s.readyPosts > 0
  {
    var t := s.(readyPosts := s.readyPosts - 1);
    if In(s, Exec) == [] && In(s, Ready) != [] then
      var pid := In(s, Ready)[Chosen(policy, In(s, Ready), priority)];
      t.(lists := Moved(s.lists, Ready, Exec, pid), execPosts := s.execPosts + 1)
    else t
  }

  /** execute_process takes a post and, if EXEC is occupied, sends its process to the CPU. */
  function Sent(s: Kernel): Kernel
    requires s.execPosts > 0
  {
    s.(execPosts := s.execPosts - 1, running := In(s, Exec) != [])
  }

  /** The CPU gives the process back. */
  function Returned(s: Kernel, r: Reason): Kernel
    requires In(s, Exec) != []
  {
    var pid := In(s, Exec)[0];
    var t := s.(running := false, marked := s.marked - {pid});
    match OutcomeOf(r)
    case GoesOn => t.(execPosts := s.execPosts + 1)
    case Waits(place) => t.(lists := Moved(s.lists, Exec, place, pid), readyPosts := s.readyPosts + 1)
    case Leaves =>
      t.(lists := Moved(s.lists, Exec, Exit, pid), grd := s.grd + 1, readyPosts := s.readyPosts + 1,
        exitPosts := s.exitPosts + 1)
    case AwaitsFinish => t.(finishPosts := s.finishPosts + 1, message := false)
    case Forgotten => t
  }

  predicate IsWaiting(p: Place) {
    p != New && p != Ready && p != Exec && p != Exit
  }

  /** The end of a sleep, an interruption, a fault, a wait or a call. A marked process is eliminated at the end of the
      first two. */
  function Woken(s: Kernel, p: Place, pid: Pid): Kernel {
    if pid in s.marked && (p == Sleep || p == Interrupt) then
      s.(lists := Taken(s.lists, p, pid), live := s.live - {pid}, grd := s.grd + 1)
    else
      s.(lists := Moved(s.lists, p, Ready, pid), readyPosts := s.readyPosts + 1)
  }

  /** A turn of atender_procesos_en_EXIT. */
  function Drained(s: Kernel): Kernel
    requires s.exitPosts > 0
  {
    var t := s.(exitPosts := s.exitPosts - 1);
    if In(s, Exit) != [] then
      t.(lists := Taken(s.lists, Exit, In(s, Exit)[0]), live := s.live - {In(s, Exit)[0]})
    else t
  }

  /** finalizar_proceso on a process that is in p. */
  function Killed(s: Kernel, p: Place, pid: Pid): Kernel {
    match p
    case Exec => s.(finishing := {pid}, message := true)
    case New | Exit => s.(lists := Taken(s.lists, p, pid), live := s.live - {pid})
    case Ready | Blocked(_) => s.(lists := Taken(s.lists, p, pid), live := s.live - {pid}, grd := s.grd + 1)
    case Sleep | Interrupt | Fault => s.(marked := s.marked + {pid})
    case FileWait | FileCall => s
  }

  /** check_interrupt finds a message for another process than the one that runs, and throws it away. */
  function Discarded(s: Kernel): Kernel {
    s.(message := false)
  }

  /** The console's wait for finish_interrupted_process is over. */
  function FinishedByHand(s: Kernel): Kernel
    requires s.finishPosts > 0 && In(s, Exec) != []
  {
    s.(lists := Taken(s.lists, Exec, In(s, Exec)[0]), live := s.live - {In(s, Exec)[0]}, finishing := {},
       finishPosts := s.finishPosts - 1, grd := s.grd + 1, readyPosts := s.readyPosts + 1)
  }

  // ----- runs

  datatype Event =
    | Create(pid: Pid)
    | StartAdmission
    | Admit
    | Dispatch(policy: Policy, priority: map<Pid, int>)
    | Send
    | Return(reason: Reason)
    | Wake(place: Place, pid: Pid)
    | Drain
    | Kill(place: Place, pid: Pid)
    | Discard
    | FinishByHand

  /** The console creates and kills, and does neither while it waits for a manual finish. */
  ghost predicate Next(s: Kernel, e: Event, t: Kernel) {
    match e
    case Create(pid) => s.finishing == {} && pid == s.next && t == Created(s, pid)
    case StartAdmission => s.newPosts > 0 && !s.admitting && t == AdmissionStarted(s)
    case Admit => s.admitting && s.grd > 0 && In(s, New) != [] && t == Admitted(s)
    case Dispatch(policy, priority) => s.readyPosts > 0 && t == Dispatched(s, policy, priority)
    case Send => s.execPosts > 0 && !s.running && t == Sent(s)
    case Return(r) =>
      s.running && In(s, Exec) != [] && (r.InterruptFinish? ==> s.message && In(s, Exec)[0] in s.finishing) &&
        t == Returned(s, r)
    case Wake(p, pid) =>
      IsWaiting(p) && pid in In(s, p) && (p.Blocked? ==> In(s, p)[0] == pid) && t == Woken(s, p, pid)
    case Drain => s.exitPosts > 0 && t == Drained(s)
    case Kill(p, pid) => s.finishing == {} && pid in In(s, p) && t == Killed(s, p, pid)
    case Discard => s.running && In(s, Exec) != [] && s.message && In(s, Exec)[0] !in s.finishing && t == Discarded(s)
    case FinishByHand => s.finishPosts > 0 && s.finishing != {} && In(s, Exec) != [] && t == FinishedByHand(s)
  }

  ghost predicate Initial(degree: nat, s: Kernel) {
    s == Kernel(map[], {}, {}, 0, degree, 0, 0, 0, 0, false, false, {}, false, 1)
  }

  ghost predicate IsRun(degree: nat, events: seq<Event>, states: seq<Kernel>) {
    && |states| == |events| + 1
    && Initial(degree, states[0])
    && (forall i :: 0 <= i < |events| ==> Next(states[i], events[i], states[i + 1]))
  }

  lemma RunGoesOn(degree: nat, events: seq<Event>, states: seq<Kernel>, s: Kernel, e: Event, t: Kernel)
    requires IsRun(degree, events, states) && states[|events|] == s && Next(s, e, t)
    ensures IsRun(degree, events + [e], states + [t]) && (states + [t])[|events + [e]|] == t
  {
  }

  // ----- what every run keeps

  /** Every live process is in exactly one place, once. */
  ghost predicate Partition(lists: Lists, live: set<Pid>) {
    && (forall p :: NoDuplicates(At(lists, p)))
    && (forall p, q, x :: x in At(lists, p) && x in At(lists, q) ==> p == q)
    && (forall p, x :: x in At(lists, p) ==> x in live)
    && (forall x :: x in live ==> IsSomewhere(lists, x))
  }

  ghost predicate IsSomewhere(lists: Lists, x: Pid) {
    exists p :: x in At(lists, p)
  }

  function One(b: bool): nat {
    if b then 1 else 0
  }

  /** The degree is split between the places left and the processes that were admitted and have not left. */
  predicate DegreeKept(degree: nat, s: Kernel) {
    s.grd + |s.live| - |In(s, New)| - |In(s, Exit)| == degree
  }

  /** EXEC holds one process at most, and every token for it is backed by that process. */
  predicate ExecTokens(s: Kernel) {
    s.execPosts + One(s.running) + s.finishPosts <= |In(s, Exec)| <= 1
  }

  predicate Posts(s: Kernel) {
    && (In(s, Exec) == [] && In(s, Ready) != [] ==> s.readyPosts > 0)
    && |In(s, New)| <= s.newPosts + One(s.admitting)
    && |In(s, Exit)| <= s.exitPosts
  }

  /** Pids are given out once. */
  ghost predicate Numbered(s: Kernel) {
    forall x :: x in s.live ==> x < s.next
  }

  ghost predicate Inv(degree: nat, s: Kernel) {
    Partition(s.lists, s.live) && Numbered(s) && DegreeKept(degree, s) && ExecTokens(s) && Posts(s)
  }

  // ----- moves

  lemma {:induction false} RemoveFirstOnce(s: seq<Pid>, x: Pid)
    requires NoDuplicates(s) && x in s
    ensures NoDuplicates(RemoveFirst(s, x)) && |RemoveFirst(s, x)| == |s| - 1
    ensures forall y :: y in RemoveFirst(s, x) <==> y in s && y != x
  {
    if s[0] != x {
      RemoveFirstOnce(s[1..], x);
      var r := RemoveFirst(s[1..], x);
      assert forall y :: y in [s[0]] + r <==> y == s[0] || y in r;
      assert s[0] !in s[1..];
    } else {
      assert x !in s[1..];
    }
  }

  /** What a removal does to every list. */
  lemma TakenLists(lists: Lists, p: Place, x: Pid)
    requires NoDuplicates(At(lists, p)) && x in At(lists, p)
    ensures forall q :: q != p ==> At(Taken(lists, p, x), q) == At(lists, q)
    ensures NoDuplicates(At(Taken(lists, p, x), p)) && |At(Taken(lists, p, x), p)| == |At(lists, p)| - 1
    ensures forall y :: y in At(Taken(lists, p, x), p) <==> y in At(lists, p) && y != x
  {
    RemoveFirstOnce(At(lists, p), x);
  }

  lemma StillSomewhere(lists: Lists, t: Lists, y: Pid)
    requires IsSomewhere(lists, y) && forall q :: y in At(lists, q) ==> y in At(t, q)
    ensures IsSomewhere(t, y)
  {
    var q :| y in At(lists, q);
    assert y in At(t, q);
  }

  lemma TakenKeeps(lists: Lists, live: set<Pid>, p: Place, x: Pid)
    requires Partition(lists, live) && x in At(lists, p)
    ensures Partition(Taken(lists, p, x), live - {x})
    ensures forall q :: |At(Taken(lists, p, x), q)| == |At(lists, q)| - One(q == p)
    ensures forall q, y :: y in At(Taken(lists, p, x), q) <==> y in At(lists, q) && y != x
  {
    var t := Taken(lists, p, x);
    TakenLists(lists, p, x);
    forall q, y ensures y in At(t, q) <==> y in At(lists, q) && y != x {
      if q != p {
        assert At(t, q) == At(lists, q);
      }
    }
    forall y | y in live - {x} ensures IsSomewhere(t, y) {
      StillSomewhere(lists, t, y);
    }
  }

  lemma PutList(queue: seq<Pid>, x: Pid)
    requires NoDuplicates(queue) && x !in queue
    ensures NoDuplicates(queue + [x])
  {
  }

  lemma PutKeeps(lists: Lists, live: set<Pid>, p: Place, x: Pid)
    requires Partition(lists, live) && x !in live
    ensures Partition(Put(lists, p, x), live + {x})
    ensures forall q :: |At(Put(lists, p, x), q)| == |At(lists, q)| + One(q == p)
  {
    var t := Put(lists, p, x);
    PutList(At(lists, p), x);
    forall q, y ensures y in At(t, q) <==> y in At(lists, q) || (q == p && y == x) {
      if q != p {
        assert At(t, q) == At(lists, q);
      }
    }
    forall q ensures NoDuplicates(At(t, q)) {
      if q != p {
        assert At(t, q) == At(lists, q);
      }
    }
    assert x in At(t, p);
    forall y | y in live + {x} ensures IsSomewhere(t, y) {
      if y != x {
        StillSomewhere(lists, t, y);
      }
    }
  }

  lemma MovedKeeps(lists: Lists, live: set<Pid>, p: Place, q: Place, x: Pid)
    requires Partition(lists, live) && x in At(lists, p)
    ensures Partition(Moved(lists, p, q, x), live)
    ensures forall r :: |At(Moved(lists, p, q, x), r)| == |At(lists, r)| - One(r == p) + One(r == q)
  {
    TakenKeeps(lists, live, p, x);
    PutKeeps(Taken(lists, p, x), live - {x}, q, x);
    assert live - {x} + {x} == live;
  }

  // ----- one step

  lemma LeavesKeeps(degree: nat, s: Kernel, p: Place, x: Pid, t: Kernel)
    requires Inv(degree, s) && x in In(s, p) && t.lists == Taken(s.lists, p, x) && t.live == s.live - {x}
    requires t.grd == s.grd + One(p != New && p != Exit)
    ensures Partition(t.lists, t.live) && DegreeKept(degree, t)
    ensures forall q :: |In(t, q)| == |In(s, q)| - One(q == p)
  {
    TakenKeeps(s.lists, s.live, p, x);
    assert x in s.live;
    assert |t.live| == |s.live| - 1;
  }

  lemma MovesKeeps(degree: nat, s: Kernel, p: Place, q: Place, x: Pid, t: Kernel)
    requires Inv(degree, s) && x in In(s, p) && t.lists == Moved(s.lists, p, q, x) && t.live == s.live
    requires t.grd == s.grd - One(p == New) + One(p == Exit) + One(q == New) + One(q == Exit)
    ensures Partition(t.lists, t.live) && (p != Exit && q != New ==> DegreeKept(degree, t))
    ensures forall r :: |In(t, r)| == |In(s, r)| - One(r == p) + One(r == q)
  {
    MovedKeeps(s.lists, s.live, p, q, x);
  }

  lemma CreateKeepsDegree(degree: nat, s: Kernel, pid: Pid)
    requires Partition(s.lists, s.live) && DegreeKept(degree, s) && pid !in s.live
    ensures Partition(Created(s, pid).lists, Created(s, pid).live) && DegreeKept(degree, Created(s, pid))
    ensures forall q :: |In(Created(s, pid), q)| == |In(s, q)| + One(q == New)
  {
    PutKeeps(s.lists, s.live, New, pid);
    assert |s.live + {pid}| == |s.live| + 1;
  }

  lemma CreateKeepsRest(s: Kernel, pid: Pid)
    requires Numbered(s) && ExecTokens(s) && Posts(s) && pid == s.next
    requires forall q :: |In(Created(s, pid), q)| == |In(s, q)| + One(q == New)
    ensures Numbered(Created(s, pid)) && ExecTokens(Created(s, pid)) && Posts(Created(s, pid))
  {
  }

  lemma CreateKeeps(degree: nat, s: Kernel, pid: Pid)
    requires Inv(degree, s) && pid == s.next
    ensures Inv(degree, Created(s, pid))
  {
    CreateKeepsDegree(degree, s, pid);
    CreateKeepsRest(s, pid);
  }

  lemma AdmitKeeps(degree: nat, s: Kernel)
    requires Inv(degree, s) && s.admitting && s.grd > 0 && In(s, New) != []
    ensures Inv(degree, Admitted(s))
  {
    MovesKeeps(degree, s, New, Ready, In(s, New)[0], Admitted(s));
  }

  lemma DispatchKeeps(degree: nat, s: Kernel, policy: Policy, priority: map<Pid, int>)
    requires Inv(degree, s) && s.readyPosts > 0
    ensures Inv(degree, Dispatched(s, policy, priority))
  {
    if In(s, Exec) == [] && In(s, Ready) != [] {
      MovesKeeps(degree, s, Ready, Exec, In(s, Ready)[Chosen(policy, In(s, Ready), priority)],
        Dispatched(s, policy, priority));
    }
  }

  lemma ReturnWaitsKeeps(degree: nat, s: Kernel, r: Reason)
    requires Inv(degree, s) && s.running && In(s, Exec) != [] && OutcomeOf(r).Waits?
    ensures Inv(degree, Returned(s, r))
  {
    MovesKeeps(degree, s, Exec, OutcomeOf(r).place, In(s, Exec)[0], Returned(s, r));
  }

  lemma ReturnLeavesKeeps(degree: nat, s: Kernel, r: Reason)
    requires Inv(degree, s) && s.running && In(s, Exec) != [] && OutcomeOf(r).Leaves?
    ensures Inv(degree, Returned(s, r))
  {
    MovesKeeps(degree, s, Exec, Exit, In(s, Exec)[0], Returned(s, r));
  }

  lemma ReturnKeeps(degree: nat, s: Kernel, r: Reason)
    requires Inv(degree, s) && s.running && In(s, Exec) != []
    ensures Inv(degree, Returned(s, r))
  {
    match OutcomeOf(r)
    case Waits(place) => ReturnWaitsKeeps(degree, s, r);
    case Leaves => ReturnLeavesKeeps(degree, s, r);
    case _ => assert Returned(s, r).lists == s.lists && Returned(s, r).live == s.live;
  }

  lemma WakeKeeps(degree: nat, s: Kernel, p: Place, pid: Pid)
    requires Inv(degree, s) && IsWaiting(p) && pid in In(s, p)
    ensures Inv(degree, Woken(s, p, pid))
  {
    if pid in s.marked && (p == Sleep || p == Interrupt) {
      LeavesKeeps(degree, s, p, pid, Woken(s, p, pid));
    } else {
      MovesKeeps(degree, s, p, Ready, pid, Woken(s, p, pid));
    }
  }

  lemma KillKeeps(degree: nat, s: Kernel, p: Place, pid: Pid)
    requires Inv(degree, s) && pid in In(s, p)
    ensures Inv(degree, Killed(s, p, pid))
  {
    match p
    case New | Exit | Ready | Blocked(_) => LeavesKeeps(degree, s, p, pid, Killed(s, p, pid));
    case _ =>
  }

  lemma DrainKeeps(degree: nat, s: Kernel)
    requires Inv(degree, s) && s.exitPosts > 0
    ensures Inv(degree, Drained(s))
  {
    if In(s, Exit) != [] {
      LeavesKeeps(degree, s, Exit, In(s, Exit)[0], Drained(s));
    }
  }

  lemma FinishKeeps(degree: nat, s: Kernel)
    requires Inv(degree, s) && s.finishPosts > 0 && In(s, Exec) != []
    ensures Inv(degree, FinishedByHand(s))
  {
    LeavesKeeps(degree, s, Exec, In(s, Exec)[0], FinishedByHand(s));
  }

  lemma NextKeeps(degree: nat, s: Kernel, e: Event, t: Kernel)
    requires Inv(degree, s) && Next(s, e, t)
    ensures Inv(degree, t)
  {
    match e
    case Create(pid) => CreateKeeps(degree, s, pid);
    case StartAdmission =>
    case Admit => AdmitKeeps(degree, s);
    case Dispatch(policy, priority) => DispatchKeeps(degree, s, policy, priority);
    case Send =>
    case Return(r) => ReturnKeeps(degree, s, r);
    case Wake(p, pid) => WakeKeeps(degree, s, p, pid);
    case Drain => DrainKeeps(degree, s);
    case Kill(p, pid) => KillKeeps(degree, s, p, pid);
    case Discard =>
    case FinishByHand => FinishKeeps(degree, s);
  }

  /** Main invariant, over every run: each live process is in exactly one queue; the free places of grd_mult and the
      processes admitted and not yet gone add up to the degree; READY is never left waiting behind an empty EXEC;
      nobody in NEW or EXIT is forgotten. */
  lemma {:induction false} QueuesStayInOrder(degree: nat, events: seq<Event>, states: seq<Kernel>, i: nat)
    requires IsRun(degree, events, states) && i <= |events|
    ensures Inv(degree, states[i])
  {
    if i > 0 {
      QueuesStayInOrder(degree, events, states, i - 1);
      NextKeeps(degree, states[i - 1], events[i - 1], states[i]);
    }
  }

  // ----- the state diagram

  /** The process moved from one place to the other, and every other process stayed where it was. */
  ghost predicate OnlyMove(s: Kernel, t: Kernel, pid: Pid, from: Place, to: Place) {
    && pid in In(s, from) && pid in In(t, to) && t.live == s.live
    && (forall x, p :: x != pid ==> (x in In(t, p) <==> x in In(s, p)))
  }

  /** The process is gone, and every other process stayed where it was. */
  ghost predicate OnlyLeaves(s: Kernel, t: Kernel, pid: Pid, from: Place) {
    && pid in In(s, from) && t.live == s.live - {pid}
    && (forall x, p :: x != pid ==> (x in In(t, p) <==> x in In(s, p)))
  }

  ghost predicate NobodyMoves(s: Kernel, t: Kernel) {
    t.lists == s.lists && t.live == s.live
  }

  lemma MovedOnly(s: Kernel, t: Kernel, from: Place, to: Place, pid: Pid)
    requires Partition(s.lists, s.live) && pid in In(s, from) && t.lists == Moved(s.lists, from, to, pid) &&
      t.live == s.live
    ensures OnlyMove(s, t, pid, from, to)
  {
    TakenKeeps(s.lists, s.live, from, pid);
  }

  lemma LeftOnly(s: Kernel, t: Kernel, from: Place, pid: Pid)
    requires Partition(s.lists, s.live) && pid in In(s, from) && t.lists == Taken(s.lists, from, pid) &&
      t.live == s.live - {pid}
    ensures OnlyLeaves(s, t, pid, from)
  {
    TakenKeeps(s.lists, s.live, from, pid);
  }

  /** The long-term scheduler admits the process that has been in NEW longest. */
  lemma AdmitMoves(degree: nat, s: Kernel)
    requires Inv(degree, s) && s.grd > 0 && In(s, New) != []
    ensures OnlyMove(s, Admitted(s), In(s, New)[0], New, Ready)
  {
    MovedOnly(s, Admitted(s), New, Ready, In(s, New)[0]);
  }

  /** The short-term scheduler fills an empty EXEC from a READY queue that is not empty, and does nothing otherwise. */
  lemma DispatchMoves(degree: nat, s: Kernel, policy: Policy, priority: map<Pid, int>)
    requires Inv(degree, s) && s.readyPosts > 0
    ensures var t := Dispatched(s, policy, priority);
      if In(s, Exec) == [] && In(s, Ready) != [] then
        OnlyMove(s, t, In(s, Ready)[Chosen(policy, In(s, Ready), priority)], Ready, Exec)
      else NobodyMoves(s, t)
  {
    if In(s, Exec) == [] && In(s, Ready) != [] {
      MovedOnly(s, Dispatched(s, policy, priority), Ready, Exec, In(s, Ready)[Chosen(policy, In(s, Ready), priority)]);
    }
  }

  /** A process that comes back from the CPU stays in EXEC, goes to one waiting place, or goes to EXIT. */
  lemma ReturnMoves(degree: nat, s: Kernel, r: Reason)
    requires Inv(degree, s) && In(s, Exec) != []
    ensures var t, pid := Returned(s, r), In(s, Exec)[0];
      match OutcomeOf(r)
      case Waits(place) => IsWaiting(place) && OnlyMove(s, t, pid, Exec, place)
      case Leaves => OnlyMove(s, t, pid, Exec, Exit)
      case _ => NobodyMoves(s, t)
  {
    match OutcomeOf(r)
    case Waits(place) => MovedOnly(s, Returned(s, r), Exec, place, In(s, Exec)[0]);
    case Leaves => MovedOnly(s, Returned(s, r), Exec, Exit, In(s, Exec)[0]);
    case _ =>
  }

  /** Every wait ends in READY, except that a sleep or an interruption of a process marked by the console ends its
      life; the mark of a process whose page is being loaded has no such effect. */
  lemma WakeMoves(degree: nat, s: Kernel, p: Place, pid: Pid)
    requires Inv(degree, s) && IsWaiting(p) && pid in In(s, p)
    ensures if pid in s.marked && (p == Sleep || p == Interrupt) then OnlyLeaves(s, Woken(s, p, pid), pid, p)
            else OnlyMove(s, Woken(s, p, pid), pid, p, Ready)
  {
    if pid in s.marked && (p == Sleep || p == Interrupt) {
      LeftOnly(s, Woken(s, p, pid), p, pid);
    } else {
      MovedOnly(s, Woken(s, p, pid), p, Ready, pid);
    }
  }

  /** The console removes a process at once exactly from NEW, READY, EXIT and the resource queues. */
  lemma KillMoves(degree: nat, s: Kernel, p: Place, pid: Pid)
    requires Inv(degree, s) && pid in In(s, p)
    ensures if p == New || p == Ready || p == Exit || p.Blocked? then OnlyLeaves(s, Killed(s, p, pid), pid, p)
            else NobodyMoves(s, Killed(s, p, pid))
  {
    if p == New || p == Ready || p == Exit || p.Blocked? {
      LeftOnly(s, Killed(s, p, pid), p, pid);
    }
  }

  datatype Whereabouts = Nowhere | Somewhere(place: Place)

  /** The place of a process, Nowhere before it is created and after it is eliminated. */
  ghost function PlaceOf(s: Kernel, x: Pid): Whereabouts {
    if p :| x in In(s, p) then Somewhere(p) else Nowhere
  }

  /** The reasons to come back from the CPU that take a process out of EXEC, by the place they take it to. */
  predicate LeadsTo(r: Reason, p: Place) {
    match p
    case Exit =>
      || r.Finished? || (r.FWrite? && !r.forwarded)
      || (r.WaitedFor? && !r.known) || (r.SignaledTo? && !(r.known && r.holds))
    case Blocked(resource) => r.WaitedFor? && r.resource == resource && r.known && !r.free
    case Sleep => r.Slept?
    case Interrupt => r.Interrupted?
    case Fault => r.PageFaulted?
    case FileWait => r.FOpen? && (r.mode == ReadMode || r.mode == WriteMode) && r.mustWait
    case FileCall => r.FTruncate? || r.FRead? || (r.FWrite? && r.forwarded)
    case New | Ready | Exec => false
  }

  /** The calls after which the process stays in EXEC and is sent to the CPU again. */
  predicate IsServedAtOnce(r: Reason) {
    || r.FSeek? || r.FClose? || (r.FOpen? && (r.mode == ReadMode || r.mode == WriteMode) && !r.mustWait)
    || (r.WaitedFor? && r.known && r.free) || (r.SignaledTo? && r.known && r.holds)
  }

  lemma OutcomeLeads(r: Reason)
    ensures OutcomeOf(r).GoesOn? <==> IsServedAtOnce(r)
    ensures OutcomeOf(r).AwaitsFinish? <==> r.InterruptFinish?
    ensures forall p :: LeadsTo(r, p) <==> OutcomeOf(r) == Waits(p) || (OutcomeOf(r).Leaves? && p == Exit)
  {
  }

  /** The arrows of the state diagram, each with the events that may take a process along it. */
  predicate Arrow(e: Event, from: Whereabouts, to: Whereabouts) {
    match e
    case Create(_) => from == Nowhere && to == Somewhere(New)
    case Admit => from == Somewhere(New) && to == Somewhere(Ready)
    case Dispatch(_, _) => from == Somewhere(Ready) && to == Somewhere(Exec)
    case Return(r) => from == Somewhere(Exec) && to.Somewhere? && LeadsTo(r, to.place)
    case Wake(p, _) =>
      && from == Somewhere(p) && IsWaiting(p)
      && (to == Somewhere(Ready) || (to == Nowhere && (p == Sleep || p == Interrupt)))
    case Drain => from == Somewhere(Exit) && to == Nowhere
    case Kill(p, _) => from == Somewhere(p) && to == Nowhere && (p == New || p == Ready || p == Exit || p.Blocked?)
    case FinishByHand => from == Somewhere(Exec) && to == Nowhere
    case StartAdmission | Send | Discard => false
  }

  lemma PlaceIs(s: Kernel, x: Pid, p: Place)
    requires Partition(s.lists, s.live) && x in In(s, p)
    ensures PlaceOf(s, x) == Somewhere(p)
  {
  }

  lemma PlaceIsNowhere(s: Kernel, x: Pid)
    requires Partition(s.lists, s.live) && x !in s.live
    ensures PlaceOf(s, x) == Nowhere
  {
  }

  lemma SamePlace(s: Kernel, t: Kernel, x: Pid)
    requires Partition(s.lists, s.live) && Partition(t.lists, t.live)
    requires forall p :: x in In(t, p) <==> x in In(s, p)
    ensures PlaceOf(t, x) == PlaceOf(s, x)
  {
    if p :| x in In(s, p) {
      PlaceIs(s, x, p);
      PlaceIs(t, x, p);
    }
  }

  /** Nobody changes place but x, which follows an arrow of e. */
  ghost predicate Follows(s: Kernel, e: Event, t: Kernel, x: Pid) {
    && (PlaceOf(t, x) == PlaceOf(s, x) || Arrow(e, PlaceOf(s, x), PlaceOf(t, x)))
    && (forall y :: y != x ==> PlaceOf(t, y) == PlaceOf(s, y))
  }

  lemma MoveFollows(s: Kernel, e: Event, t: Kernel, x: Pid, from: Place, to: Place)
    requires Partition(s.lists, s.live) && Partition(t.lists, t.live) && OnlyMove(s, t, x, from, to)
    requires Arrow(e, Somewhere(from), Somewhere(to))
    ensures Follows(s, e, t, x)
  {
    PlaceIs(s, x, from);
    PlaceIs(t, x, to);
    forall y | y != x ensures PlaceOf(t, y) == PlaceOf(s, y) {
      SamePlace(s, t, y);
    }
  }

  lemma LeaveFollows(s: Kernel, e: Event, t: Kernel, x: Pid, from: Place)
    requires Partition(s.lists, s.live) && Partition(t.lists, t.live) && OnlyLeaves(s, t, x, from)
    requires Arrow(e, Somewhere(from), Nowhere)
    ensures Follows(s, e, t, x)
  {
    PlaceIs(s, x, from);
    PlaceIsNowhere(t, x);
    forall y | y != x ensures PlaceOf(t, y) == PlaceOf(s, y) {
      SamePlace(s, t, y);
    }
  }

  lemma StayFollows(s: Kernel, e: Event, t: Kernel, x: Pid)
    requires Partition(s.lists, s.live) && Partition(t.lists, t.live) && NobodyMoves(s, t)
    ensures Follows(s, e, t, x)
  {
    forall y ensures PlaceOf(t, y) == PlaceOf(s, y) {
      SamePlace(s, t, y);
    }
  }

  lemma CreateFollows(s: Kernel, pid: Pid, t: Kernel)
    requires Partition(s.lists, s.live) && Partition(t.lists, t.live) && pid !in s.live && t == Created(s, pid)
    ensures Follows(s, Create(pid), t, pid)
  {
    assert pid in In(t, New);
    PlaceIs(t, pid, New);
    PlaceIsNowhere(s, pid);
    forall y | y != pid ensures PlaceOf(t, y) == PlaceOf(s, y) {
      SamePlace(s, t, y);
    }
  }

  lemma DispatchFollows(degree: nat, s: Kernel, policy: Policy, priority: map<Pid, int>) returns (x: Pid)
    requires Inv(degree, s) && s.readyPosts > 0 && Inv(degree, Dispatched(s, policy, priority))
    ensures Follows(s, Dispatch(policy, priority), Dispatched(s, policy, priority), x)
  {
    var t := Dispatched(s, policy, priority);
    DispatchMoves(degree, s, policy, priority);
    if In(s, Exec) == [] && In(s, Ready) != [] {
      x := In(s, Ready)[Chosen(policy, In(s, Ready), priority)];
      MoveFollows(s, Dispatch(policy, priority), t, x, Ready, Exec);
    } else {
      x := 0;
      StayFollows(s, Dispatch(policy, priority), t, x);
    }
  }

  lemma ReturnFollows(degree: nat, s: Kernel, r: Reason) returns (x: Pid)
    requires Inv(degree, s) && In(s, Exec) != [] && Inv(degree, Returned(s, r))
    ensures Follows(s, Return(r), Returned(s, r), x)
  {
    var t := Returned(s, r);
    x := In(s, Exec)[0];
    ReturnMoves(degree, s, r);
    OutcomeLeads(r);
    match OutcomeOf(r)
    case Waits(place) => MoveFollows(s, Return(r), t, x, Exec, place);
    case Leaves => MoveFollows(s, Return(r), t, x, Exec, Exit);
    case _ => StayFollows(s, Return(r), t, x);
  }

  lemma WakeFollows(degree: nat, s: Kernel, p: Place, pid: Pid)
    requires Inv(degree, s) && IsWaiting(p) && pid in In(s, p) && Inv(degree, Woken(s, p, pid))
    ensures Follows(s, Wake(p, pid), Woken(s, p, pid), pid)
  {
    WakeMoves(degree, s, p, pid);
    if pid in s.marked && (p == Sleep || p == Interrupt) {
      LeaveFollows(s, Wake(p, pid), Woken(s, p, pid), pid, p);
    } else {
      MoveFollows(s, Wake(p, pid), Woken(s, p, pid), pid, p, Ready);
    }
  }

  lemma KillFollows(degree: nat, s: Kernel, p: Place, pid: Pid)
    requires Inv(degree, s) && pid in In(s, p) && Inv(degree, Killed(s, p, pid))
    ensures Follows(s, Kill(p, pid), Killed(s, p, pid), pid)
  {
    KillMoves(degree, s, p, pid);
    if p == New || p == Ready || p == Exit || p.Blocked? {
      LeaveFollows(s, Kill(p, pid), Killed(s, p, pid), pid, p);
    } else {
      StayFollows(s, Kill(p, pid), Killed(s, p, pid), pid);
    }
  }

  lemma DrainFollows(degree: nat, s: Kernel) returns (x: Pid)
    requires Inv(degree, s) && s.exitPosts > 0 && Inv(degree, Drained(s))
    ensures Follows(s, Drain, Drained(s), x)
  {
    if In(s, Exit) != [] {
      x := In(s, Exit)[0];
      LeftOnly(s, Drained(s), Exit, x);
      LeaveFollows(s, Drain, Drained(s), x, Exit);
    } else {
      x := 0;
      StayFollows(s, Drain, Drained(s), x);
    }
  }

  lemma AdmitFollows(degree: nat, s: Kernel)
    requires Inv(degree, s) && s.grd > 0 && In(s, New) != [] && Inv(degree, Admitted(s))
    ensures Follows(s, Admit, Admitted(s), In(s, New)[0])
  {
    AdmitMoves(degree, s);
    MoveFollows(s, Admit, Admitted(s), In(s, New)[0], New, Ready);
  }

  lemma FinishFollows(degree: nat, s: Kernel)
    requires Inv(degree, s) && s.finishPosts > 0 && In(s, Exec) != [] && Inv(degree, FinishedByHand(s))
    ensures Follows(s, FinishByHand, FinishedByHand(s), In(s, Exec)[0])
  {
    LeftOnly(s, FinishedByHand(s), Exec, In(s, Exec)[0]);
    LeaveFollows(s, FinishByHand, FinishedByHand(s), In(s, Exec)[0], Exec);
  }

  lemma NextFollows(degree: nat, s: Kernel, e: Event, t: Kernel) returns (x: Pid)
    requires Inv(degree, s) && Next(s, e, t) && Inv(degree, t)
    ensures Follows(s, e, t, x)
  {
    match e
    case Create(pid) => x := pid; CreateFollows(s, pid, t);
    case Admit => x := In(s, New)[0]; AdmitFollows(degree, s);
    case Dispatch(policy, priority) => x := DispatchFollows(degree, s, policy, priority);
    case Return(r) => x := ReturnFollows(degree, s, r);
    case Wake(p, pid) => x := pid; WakeFollows(degree, s, p, pid);
    case Drain => x := DrainFollows(degree, s);
    case Kill(p, pid) => x := pid; KillFollows(degree, s, p, pid);
    case FinishByHand => x := In(s, Exec)[0]; FinishFollows(degree, s);
    case StartAdmission | Send | Discard => x := 0; StayFollows(s, e, t, x);
  }

  /** Over every run, the places of each process are a path of the state diagram, and in each step one process moves
      at most. */
  lemma PlacesFollowTheDiagram(degree: nat, events: seq<Event>, states: seq<Kernel>, i: nat) returns (x: Pid)
    requires IsRun(degree, events, states) && i < |events|
    ensures forall y :: y != x ==> PlaceOf(states[i + 1], y) == PlaceOf(states[i], y)
    ensures PlaceOf(states[i + 1], x) == PlaceOf(states[i], x) ||
      Arrow(events[i], PlaceOf(states[i], x), PlaceOf(states[i + 1], x))
  {
    QueuesStayInOrder(degree, events, states, i);
    QueuesStayInOrder(degree, events, states, i + 1);
    assert Next(states[i], events[i], states[i + 1]);
    x := NextFollows(degree, states[i], events[i], states[i + 1]);
  }

  lemma LeavesExec(s: Kernel, t: Kernel, to: Place, x: Pid)
    requires In(s, Exec) == [x] && to != Exec && t.lists == Moved(s.lists, Exec, to, x)
    ensures In(t, Exec) == [] && In(t, to) == In(s, to) + [x]
    ensures forall p :: p != Exec && p != to ==> In(t, p) == In(s, p)
  {
  }

  lemma ReturnLists(degree: nat, s: Kernel, r: Reason)
    requires Inv(degree, s) && s.running && In(s, Exec) != []
    ensures match OutcomeOf(r)
      case Waits(place) => place != Exec && Returned(s, r).lists == Moved(s.lists, Exec, place, In(s, Exec)[0])
      case Leaves => Returned(s, r).lists == Moved(s.lists, Exec, Exit, In(s, Exec)[0])
      case _ => Returned(s, r).lists == s.lists
    ensures In(s, Exec) == [In(s, Exec)[0]]
  {
  }

  /** Each place is entered for its own reasons and at its end, and for the others the process stays in EXEC. */
  lemma ReturnArrives(degree: nat, s: Kernel, r: Reason, p: Place)
    requires Inv(degree, s) && s.running && In(s, Exec) != [] && p != Exec
    ensures var t, x := Returned(s, r), In(s, Exec)[0];
      && In(t, p) == In(s, p) + (if LeadsTo(r, p) then [x] else [])
      && (LeadsTo(r, p) ==> In(t, Exec) == [])
      && ((forall q :: !LeadsTo(r, q)) ==> In(t, Exec) == [x])
  {
    OutcomeLeads(r);
    ReturnLists(degree, s, r);
    var t, x := Returned(s, r), In(s, Exec)[0];
    match OutcomeOf(r)
    case Waits(place) =>
      assert LeadsTo(r, place);
      LeavesExec(s, t, place, x);
    case Leaves =>
      assert LeadsTo(r, Exit);
      LeavesExec(s, t, Exit, x);
    case _ =>
  }

  lemma ReturnCounts(s: Kernel, r: Reason)
    requires In(s, Exec) != []
    ensures var t := Returned(s, r);
      && t.execPosts == s.execPosts + One(IsServedAtOnce(r))
      && t.finishPosts == s.finishPosts + One(r.InterruptFinish?)
      && t.grd == s.grd + One(LeadsTo(r, Exit)) && t.exitPosts == s.exitPosts + One(LeadsTo(r, Exit))
      && !t.running
  {
    OutcomeLeads(r);
  }

  /** Over every run, what comes of each reason the CPU returns with: the process goes last in the queue that the reason
      stands for, and in no other; without such a queue it stays in EXEC, and it is sent to the CPU again exactly if its
      call was served at once. */
  lemma ReturnGoesWhere(degree: nat, events: seq<Event>, states: seq<Kernel>, i: nat, r: Reason, p: Place)
    requires IsRun(degree, events, states) && i < |events| && events[i] == Return(r) && p != Exec
    ensures In(states[i], Exec) != []
    ensures var s, t, x := states[i], states[i + 1], In(states[i], Exec)[0];
      && In(t, p) == In(s, p) + (if LeadsTo(r, p) then [x] else [])
      && (LeadsTo(r, p) ==> In(t, Exec) == [])
      && ((forall q :: !LeadsTo(r, q)) ==> In(t, Exec) == [x])
      && t.execPosts == s.execPosts + One(IsServedAtOnce(r))
      && t.finishPosts == s.finishPosts + One(r.InterruptFinish?)
      && t.grd == s.grd + One(LeadsTo(r, Exit)) && t.exitPosts == s.exitPosts + One(LeadsTo(r, Exit))
  {
    QueuesStayInOrder(degree, events, states, i);
    assert Next(states[i], events[i], states[i + 1]);
    ReturnArrives(degree, states[i], r, p);
    ReturnCounts(states[i], r);
  }

  lemma NobodyAtFirst(degree: nat, s: Kernel, x: Pid)
    requires Initial(degree, s)
    ensures PlaceOf(s, x) == Nowhere
  {
    assert forall q :: In(s, q) == [];
  }

  ghost predicate StaysAt(states: seq<Kernel>, x: Pid, p: Place, i: nat, j: nat)
    requires i <= j < |states|
  {
    forall k :: i < k <= j ==> PlaceOf(states[k], x) == Somewhere(p)
  }

  /** Wherever a process is, one event took it there along an arrow that ends there, and it has been there since: it
      runs because it was dispatched from READY, and it waits in a place because it came back from the CPU with a
      reason to wait there. */
  lemma {:induction false} HowItCame(degree: nat, events: seq<Event>, states: seq<Kernel>, j: nat, x: Pid, p: Place)
    returns (i: nat)
    requires IsRun(degree, events, states) && j <= |events| && PlaceOf(states[j], x) == Somewhere(p)
    ensures i < j && Arrow(events[i], PlaceOf(states[i], x), Somewhere(p)) && StaysAt(states, x, p, i, j)
  {
    NobodyAtFirst(degree, states[0], x);
    var mover := PlacesFollowTheDiagram(degree, events, states, j - 1);
    if PlaceOf(states[j - 1], x) == Somewhere(p) {
      i := HowItCame(degree, events, states, j - 1, x, p);
    } else {
      i := j - 1;
    }
  }

  // ----- the degree of multiprogramming

  function Processes(queue: seq<Pid>): set<Pid> {
    set x | x in queue
  }

  /** The processes that were admitted and have not left through EXIT. */
  function Admissions(s: Kernel): set<Pid> {
    s.live - Processes(In(s, New)) - Processes(In(s, Exit))
  }

  lemma {:induction false} DistinctCount(queue: seq<Pid>)
    requires NoDuplicates(queue)
    ensures |Processes(queue)| == |queue|
  {
    if queue != [] {
      DistinctCount(queue[1..]);
      assert queue == [queue[0]] + queue[1..];
      assert queue[0] !in queue[1..];
      assert Processes(queue) == Processes(queue[1..]) + {queue[0]};
    } else {
      assert Processes(queue) == {};
    }
  }

  /** The degree is never exceeded: in every state the admitted processes are exactly as many as the places taken from
      it. */
  lemma DegreeIsRespected(degree: nat, events: seq<Event>, states: seq<Kernel>, i: nat)
    requires IsRun(degree, events, states) && i <= |events|
    ensures |Admissions(states[i])| + states[i].grd == degree
  {
    var s := states[i];
    QueuesStayInOrder(degree, events, states, i);
    DistinctCount(In(s, New));
    DistinctCount(In(s, Exit));
    assert Processes(In(s, New)) <= s.live && Processes(In(s, Exit)) <= s.live - Processes(In(s, New));
  }

  // ----- the EXEC slot

  /** F_OPEN in a mode that is neither R nor W. */
  predicate OpensInOtherMode(e: Event) {
    e.Return? && e.reason.FOpen? && e.reason.mode == OtherMode
  }

  /** EXEC is occupied, and no post, no CPU and no console will ever act on its process. */
  predicate Abandoned(s: Kernel) {
    In(s, Exec) != [] && s.execPosts == 0 && !s.running && s.finishPosts == 0
  }

  /** What turns a slot that is acted on into an abandoned one is exactly the return of an F_OPEN in another mode. */
  lemma AbandonedIff(degree: nat, s: Kernel, e: Event, t: Kernel)
    requires Inv(degree, s) && Next(s, e, t) && !Abandoned(s)
    ensures Abandoned(t) <==> OpensInOtherMode(e)
  {
    ExecAfter(degree, s, e, t);
  }

  /** The tokens for EXEC in excess of its occupants. */
  function Excess(s: Kernel): int {
    s.execPosts + One(s.running) + s.finishPosts - |In(s, Exec)|
  }

  /** Tokens and occupants change together in every step but that one. */
  lemma ExecAfter(degree: nat, s: Kernel, e: Event, t: Kernel)
    requires Inv(degree, s) && Next(s, e, t)
    ensures Excess(t) == Excess(s) - One(OpensInOtherMode(e))
  {
    match e
    case Dispatch(policy, priority) => ExecAfterDispatch(degree, s, policy, priority);
    case Return(r) => ExecAfterReturn(degree, s, r);
    case Kill(p, pid) => ExecAfterKill(degree, s, p, pid);
    case FinishByHand => TakenKeeps(s.lists, s.live, Exec, In(s, Exec)[0]);
    case _ =>
  }

  lemma ExecAfterDispatch(degree: nat, s: Kernel, policy: Policy, priority: map<Pid, int>)
    requires Inv(degree, s) && s.readyPosts > 0
    ensures Excess(Dispatched(s, policy, priority)) == Excess(s)
  {
    if In(s, Exec) == [] && In(s, Ready) != [] {
      MovedKeeps(s.lists, s.live, Ready, Exec, In(s, Ready)[Chosen(policy, In(s, Ready), priority)]);
    }
  }

  lemma ExecAfterKill(degree: nat, s: Kernel, p: Place, pid: Pid)
    requires Inv(degree, s) && pid in In(s, p)
    ensures Excess(Killed(s, p, pid)) == Excess(s)
  {
  }

  lemma ExecAfterReturn(degree: nat, s: Kernel, r: Reason)
    requires Inv(degree, s) && s.running && In(s, Exec) != []
    ensures Excess(Returned(s, r)) == Excess(s) - One(OpensInOtherMode(Return(r)))
  {
    var pid := In(s, Exec)[0];
    match OutcomeOf(r)
    case Waits(place) => MovedKeeps(s.lists, s.live, Exec, place, pid);
    case Leaves => MovedKeeps(s.lists, s.live, Exec, Exit, pid);
    case _ =>
  }

  lemma {:induction false} ExcessKept(degree: nat, events: seq<Event>, states: seq<Kernel>, i: nat)
    requires IsRun(degree, events, states) && i <= |events|
    requires forall k :: 0 <= k < i ==> !OpensInOtherMode(events[k])
    ensures Excess(states[i]) == 0
  {
    if i > 0 {
      ExcessKept(degree, events, states, i - 1);
      QueuesStayInOrder(degree, events, states, i - 1);
      ExecAfter(degree, states[i - 1], events[i - 1], states[i]);
    }
  }

  lemma NoExcess(degree: nat, s: Kernel)
    requires Inv(degree, s) && Excess(s) == 0
    ensures s.execPosts + One(s.running) + s.finishPosts == |In(s, Exec)| <= 1
    ensures In(s, Ready) != [] ==> s.readyPosts > 0 || s.execPosts == 1 || s.running || s.finishPosts == 1
  {
  }

  /** Work conservation, over every run without such an F_OPEN: an occupied EXEC has exactly one of a pending post,
      the CPU, or its manual finish, an empty one has none, and so a process in READY always has somebody to move it
      on. */
  lemma ExecIsNeverAbandoned(degree: nat, events: seq<Event>, states: seq<Kernel>, i: nat)
    requires IsRun(degree, events, states) && i <= |events|
    requires forall k :: 0 <= k < i ==> !OpensInOtherMode(events[k])
    ensures states[i].execPosts + One(states[i].running) + states[i].finishPosts == |In(states[i], Exec)| <= 1
    ensures In(states[i], Ready) != [] ==>
      states[i].readyPosts > 0 || states[i].execPosts == 1 || states[i].running || states[i].finishPosts == 1
  {
    QueuesStayInOrder(degree, events, states, i);
    ExcessKept(degree, events, states, i);
    NoExcess(degree, states[i]);
  }

  ghost predicate AbandonedWith(s: Kernel, occupants: seq<Pid>) {
    Abandoned(s) && In(s, Exec) == occupants
  }

  lemma AbandonedStep(degree: nat, events: seq<Event>, states: seq<Kernel>, j: nat, occupants: seq<Pid>)
    requires IsRun(degree, events, states) && j < |events| && AbandonedWith(states[j], occupants)
    ensures AbandonedWith(states[j + 1], occupants)
  {
    assert Next(states[j], events[j], states[j + 1]);
    AbandonedStays(states[j], events[j], states[j + 1], occupants);
  }

  /** And an abandoned slot stays occupied by the same process for ever, so nothing is ever dispatched again. */
  lemma {:induction false} AbandonedForEver(degree: nat, events: seq<Event>, states: seq<Kernel>, i: nat, j: nat,
                                            occupants: seq<Pid>)
    requires IsRun(degree, events, states) && i <= j <= |events| && AbandonedWith(states[i], occupants)
    ensures AbandonedWith(states[j], occupants)
  {
    if i < j {
      AbandonedForEver(degree, events, states, i, j - 1, occupants);
      AbandonedStep(degree, events, states, j - 1, occupants);
    }
  }

  lemma AbandonedStays(s: Kernel, e: Event, t: Kernel, occupants: seq<Pid>)
    requires Next(s, e, t) && AbandonedWith(s, occupants)
    ensures AbandonedWith(t, occupants)
  {
    match e
    case Wake(p, pid) => WakeElsewhere(s, p, pid);
    case Kill(p, pid) => KillElsewhere(s, p, pid);
    case _ =>
  }

  lemma WakeElsewhere(s: Kernel, p: Place, pid: Pid)
    requires IsWaiting(p)
    ensures In(Woken(s, p, pid), Exec) == In(s, Exec)
  {
  }

  lemma KillElsewhere(s: Kernel, p: Place, pid: Pid)
    ensures In(Killed(s, p, pid), Exec) == In(s, Exec)
  {
  }

  /** And it does come about: from any degree but zero, the first process opens a file in another mode. */
  lemma SlotCanBeAbandoned(degree: nat) returns (events: seq<Event>, states: seq<Kernel>)
    requires degree > 0
    ensures IsRun(degree, events, states) && AbandonedWith(states[|events|], [1]) && states[|events|].finishing == {}
  {
    var s0 := Kernel(map[], {}, {}, 0, degree, 0, 0, 0, 0, false, false, {}, false, 1);
    var s1 := Created(s0, 1);
    var s2 := AdmissionStarted(s1);
    assert In(s2, New) == [1];
    var s3 := Admitted(s2);
    assert In(s3, Ready) == [1] && In(s3, Exec) == [];
    var s4 := Dispatched(s3, FifoOrder, map[]);
    assert In(s4, Exec) == [1];
    var s5 := Sent(s4);
    var s6 := Returned(s5, FOpen(OtherMode, false));
    events := [Create(1), StartAdmission, Admit, Dispatch(FifoOrder, map[]), Send, Return(FOpen(OtherMode, false))];
    states := [s0, s1, s2, s3, s4, s5, s6];
  }

  // ----- admission

  /** The long-term scheduler waits for a place with nobody left in NEW: unless a process is created first, it will
      take the head of an empty list. */
  predicate Doomed(s: Kernel) {
    s.admitting && In(s, New) == []
  }

  /** That comes about exactly by killing the only process in NEW while the scheduler waits... */
  lemma DoomedIff(degree: nat, s: Kernel, e: Event, t: Kernel)
    requires Inv(degree, s) && Next(s, e, t) && !Doomed(s)
    ensures Doomed(t) <==> s.admitting && e.Kill? && e.place == New && In(s, New) == [e.pid]
  {
    if e.Kill? && e.place == New {
      RemoveFirstOnce(In(s, New), e.pid);
    } else if !e.Create? && !e.Admit? {
      NewUntouched(s, e, t);
    }
  }

  /** ...and ends exactly by a creation. */
  lemma DoomedEndsIff(s: Kernel, e: Event, t: Kernel)
    requires Next(s, e, t) && Doomed(s)
    ensures Doomed(t) <==> !e.Create?
  {
    if !e.Create? {
      NewUntouched(s, e, t);
    }
  }

  lemma NewUntouched(s: Kernel, e: Event, t: Kernel)
    requires Next(s, e, t) && !e.Create? && !e.Admit? && !(e.Kill? && e.place == New)
    ensures In(t, New) == In(s, New)
    ensures t.admitting == s.admitting || (e.StartAdmission? && t.admitting == (In(s, New) != []))
  {
    match e
    case Return(r) => NewAfterReturn(s, r);
    case Kill(p, pid) => NewAfterKill(s, p, pid);
    case _ =>
  }

  lemma NewAfterKill(s: Kernel, p: Place, pid: Pid)
    requires p != New
    ensures In(Killed(s, p, pid), New) == In(s, New)
  {
  }

  lemma NewAfterReturn(s: Kernel, r: Reason)
    requires In(s, Exec) != []
    ensures In(Returned(s, r), New) == In(s, New)
  {
  }

  /** And it does come about, in three steps from any degree. */
  lemma AdmissionCanBeDoomed(degree: nat) returns (events: seq<Event>, states: seq<Kernel>)
    ensures IsRun(degree, events, states) && |events| == 3 && Doomed(states[3])
  {
    var s0 := Kernel(map[], {}, {}, 0, degree, 0, 0, 0, 0, false, false, {}, false, 1);
    var s1 := Created(s0, 1);
    var s2 := AdmissionStarted(s1);
    var s3 := Killed(s2, New, 1);
    assert In(s1, New) == [1] && In(s3, New) == [];
    events, states := [Create(1), StartAdmission, Kill(New, 1)], [s0, s1, s2, s3];
  }

  // ----- manual finish

  /** Whoever is taken out of EXEC by hand is the process that the console was asked to finish. */
  predicate FinishHitsTarget(s: Kernel) {
    && |s.finishing| <= 1
    && (s.finishPosts > 0 ==> In(s, Exec) != [] && In(s, Exec)[0] in s.finishing)
  }

  lemma ReturnStaysOnTarget(degree: nat, s: Kernel, r: Reason)
    requires Inv(degree, s) && s.running && In(s, Exec) != [] && FinishHitsTarget(s)
    requires r.InterruptFinish? ==> In(s, Exec)[0] in s.finishing
    ensures FinishHitsTarget(Returned(s, r))
  {
    assert s.finishPosts == 0;
    assert OutcomeOf(r).AwaitsFinish? <==> r.InterruptFinish?;
  }

  lemma KillStaysOnTarget(degree: nat, s: Kernel, p: Place, pid: Pid)
    requires Inv(degree, s) && s.finishing == {} && FinishHitsTarget(s)
    ensures FinishHitsTarget(Killed(s, p, pid))
  {
    assert s.finishPosts == 0;
  }

  lemma OthersStayOnTarget(s: Kernel, t: Kernel)
    requires FinishHitsTarget(s) && t.finishing == s.finishing && t.finishPosts == s.finishPosts
    requires s.finishPosts > 0 ==> In(t, Exec) == In(s, Exec)
    ensures FinishHitsTarget(t)
  {
  }

  lemma FinishStaysOnTarget(degree: nat, s: Kernel, e: Event, t: Kernel)
    requires Inv(degree, s) && Next(s, e, t) && FinishHitsTarget(s)
    ensures FinishHitsTarget(t)
  {
    match e
    case Return(r) => ReturnStaysOnTarget(degree, s, r);
    case Kill(p, pid) => KillStaysOnTarget(degree, s, p, pid);
    case FinishByHand =>
      assert t.finishPosts == 0;
    case Wake(p, pid) =>
      WakeElsewhere(s, p, pid);
      OthersStayOnTarget(s, t);
    case _ => OthersStayOnTarget(s, t);
  }

  lemma FinishStep(degree: nat, events: seq<Event>, states: seq<Kernel>, i: nat)
    requires IsRun(degree, events, states) && i < |events| && FinishHitsTarget(states[i])
    ensures FinishHitsTarget(states[i + 1])
  {
    QueuesStayInOrder(degree, events, states, i);
    assert Next(states[i], events[i], states[i + 1]);
    FinishStaysOnTarget(degree, states[i], events[i], states[i + 1]);
  }

  lemma {:induction false} FinishAlwaysHitsTarget(degree: nat, events: seq<Event>, states: seq<Kernel>, i: nat)
    requires IsRun(degree, events, states) && i <= |events|
    ensures FinishHitsTarget(states[i])
  {
    if i > 0 {
      FinishAlwaysHitsTarget(degree, events, states, i - 1);
      FinishStep(degree, events, states, i - 1);
    }
  }

  /** The console takes whatever EXEC holds when it wakes up, without comparing pids; in every run it is the right
      one. */
  lemma ManualFinishIsRight(degree: nat, events: seq<Event>, states: seq<Kernel>, i: nat)
    requires IsRun(degree, events, states) && i < |events| && events[i].FinishByHand?
    ensures In(states[i], Exec) != [] && states[i].finishing == {In(states[i], Exec)[0]}
  {
    FinishAlwaysHitsTarget(degree, events, states, i);
    assert Next(states[i], events[i], states[i + 1]);
    OnlyElement(states[i].finishing, In(states[i], Exec)[0]);
  }

  lemma OnlyElement(s: set<Pid>, x: Pid)
    requires |s| <= 1 && x in s
    ensures s == {x}
  {
    assert |s - {x}| == 0;
  }

  // ----- dispatch

  /** Dispatch by priorities takes a process of the least priority value, and of these the one that is ready longest. */
  lemma {:induction false} FirstOfTheLeast(queue: seq<Pid>, priority: map<Pid, int>)
    requires queue != []
    ensures var m := MinIndex(queue, priority);
      && (forall k :: 0 <= k < |queue| ==> Value(priority, queue[m]) <= Value(priority, queue[k]))
      && (forall k :: 0 <= k < m ==> Value(priority, queue[m]) < Value(priority, queue[k]))
  {
    if |queue| > 1 {
      FirstOfTheLeast(queue[..|queue| - 1], priority);
    }
  }
}
