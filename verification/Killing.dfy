/** What the console's kill of a sleeping, interrupted or faulted process leads to, told from the events of a run. */
module Killing {
  import opened Paging
  import opened Scheduler

  /** The console finds the process asleep, interrupted or with its page being loaded. */
  predicate KillsWaiting(e: Event, x: Pid) {
    e.Kill? && e.pid == x && (e.place == Sleep || e.place == Interrupt || e.place == Fault)
  }

  /** The process comes back from the CPU. */
  predicate ComesBack(s: Kernel, e: Event, x: Pid) {
    e.Return? && In(s, Exec) != [] && In(s, Exec)[0] == x
  }

  predicate KilledAt(events: seq<Event>, states: seq<Kernel>, i: nat, x: Pid, k: nat)
    requires i <= |events| <= |states|
  {
    k < i && KillsWaiting(events[k], x) && forall m :: k < m < i ==> !ComesBack(states[m], events[m], x)
  }

  /** The console killed the process where it waited, and it has not come back from the CPU since. */
  predicate KilledSinceReturn(events: seq<Event>, states: seq<Kernel>, i: nat, x: Pid)
    requires i <= |events| <= |states|
  {
    exists k :: 0 <= k < i && KilledAt(events, states, i, x, k)
  }

  lemma MarkStep(s: Kernel, e: Event, t: Kernel, x: Pid)
    requires Next(s, e, t)
    ensures x in t.marked <==> KillsWaiting(e, x) || (x in s.marked && !ComesBack(s, e, x))
  {
  }

  lemma KilledStep(events: seq<Event>, states: seq<Kernel>, i: nat, x: Pid)
    requires i < |events| <= |states|
    ensures KilledSinceReturn(events, states, i + 1, x) <==>
      KillsWaiting(events[i], x) || (KilledSinceReturn(events, states, i, x) && !ComesBack(states[i], events[i], x))
  {
    if KillsWaiting(events[i], x) {
      assert KilledAt(events, states, i + 1, x, i);
    } else if KilledSinceReturn(events, states, i, x) && !ComesBack(states[i], events[i], x) {
      var k :| 0 <= k < i && KilledAt(events, states, i, x, k);
      assert KilledAt(events, states, i + 1, x, k);
    } else if KilledSinceReturn(events, states, i + 1, x) {
      var k :| 0 <= k < i + 1 && KilledAt(events, states, i + 1, x, k);
      assert KilledAt(events, states, i, x, k);
    }
  }

  /** Over every run, the marked processes are exactly those. */
  lemma {:induction false} MarkedIff(degree: nat, events: seq<Event>, states: seq<Kernel>, i: nat, x: Pid)
    requires IsRun(degree, events, states) && i <= |events|
    ensures x in states[i].marked <==> KilledSinceReturn(events, states, i, x)
  {
    if i > 0 {
      MarkedIff(degree, events, states, i - 1, x);
      assert Next(states[i - 1], events[i - 1], states[i]);
      MarkStep(states[i - 1], events[i - 1], states[i], x);
      KilledStep(events, states, i - 1, x);
    }
  }

  /** Over every run, a wait ends the life of its process exactly if it was a sleep or an interruption and the console
      has killed the process since it last came back from the CPU; every other wait ends in READY. */
  lemma WaitEndsTheProcessIff(degree: nat, events: seq<Event>, states: seq<Kernel>, i: nat, p: Place, x: Pid)
    requires IsRun(degree, events, states) && i < |events| && events[i] == Wake(p, x)
    ensures PlaceOf(states[i + 1], x) ==
      if (p == Sleep || p == Interrupt) && KilledSinceReturn(events, states, i, x) then Nowhere else Somewhere(Ready)
  {
    QueuesStayInOrder(degree, events, states, i);
    QueuesStayInOrder(degree, events, states, i + 1);
    MarkedIff(degree, events, states, i, x);
    assert Next(states[i], events[i], states[i + 1]);
    WakeMoves(degree, states[i], p, x);
    if (p == Sleep || p == Interrupt) && x in states[i].marked {
      PlaceIsNowhere(states[i + 1], x);
    } else {
      PlaceIs(states[i + 1], x, Ready);
    }
  }

  // ----- no way back

  /** Asleep or interrupted and marked, or eliminated. */
  predicate OnItsWayOut(s: Kernel, p: Place, x: Pid) {
    (x in In(s, p) && x in s.marked) || (x !in s.live && x < s.next)
  }

  /** Only the end of its wait takes the process out of the place where it waits, and that ends it. */
  lemma WayOutStep(degree: nat, s: Kernel, e: Event, t: Kernel, p: Place, x: Pid)
    requires Inv(degree, s) && Next(s, e, t) && Inv(degree, t) && (p == Sleep || p == Interrupt)
    requires OnItsWayOut(s, p, x)
    ensures OnItsWayOut(t, p, x)
    ensures x in In(s, p) && x !in In(t, p) ==> e == Wake(p, x) && x !in t.live && t.grd == s.grd + 1
  {
    if x in In(s, p) {
      WaitingStep(degree, s, e, t, p, x);
    } else {
      GoneStep(s, e, t, x);
    }
  }

  lemma GoneStep(s: Kernel, e: Event, t: Kernel, x: Pid)
    requires Next(s, e, t) && x !in s.live && x < s.next
    ensures x !in t.live && x < t.next
  {
  }

  lemma WaitingStep(degree: nat, s: Kernel, e: Event, t: Kernel, p: Place, x: Pid)
    requires Inv(degree, s) && Next(s, e, t) && Inv(degree, t) && (p == Sleep || p == Interrupt)
    requires x in In(s, p) && x in s.marked
    ensures if e == Wake(p, x) then x !in t.live && t.grd == s.grd + 1 else x in In(t, p) && x in t.marked
  {
    if e == Wake(p, x) {
      WakeMoves(degree, s, p, x);
    } else {
      assert x !in In(s, Exec);
      MarkStep(s, e, t, x);
      WaitsOn(degree, s, e, t, p, x);
    }
  }

  /** Nothing but the end of its wait takes a sleeping or interrupted process out of its list. */
  lemma WaitsOn(degree: nat, s: Kernel, e: Event, t: Kernel, p: Place, x: Pid)
    requires Inv(degree, s) && Next(s, e, t) && Inv(degree, t) && (p == Sleep || p == Interrupt)
    requires x in In(s, p) && e != Wake(p, x)
    ensures x in In(t, p)
  {
    var y := NextFollows(degree, s, e, t);
    PlaceIs(s, x, p);
    if e.Wake? && e.pid != x {
      WakeMoves(degree, s, e.place, e.pid);
    }
  }

  lemma WayOutInRun(degree: nat, events: seq<Event>, states: seq<Kernel>, i: nat, p: Place, x: Pid)
    requires IsRun(degree, events, states) && i < |events| && (p == Sleep || p == Interrupt)
    requires OnItsWayOut(states[i], p, x)
    ensures OnItsWayOut(states[i + 1], p, x)
    ensures x in In(states[i], p) && x !in In(states[i + 1], p) ==>
      events[i] == Wake(p, x) && x !in states[i + 1].live && states[i + 1].grd == states[i].grd + 1
  {
    QueuesStayInOrder(degree, events, states, i);
    QueuesStayInOrder(degree, events, states, i + 1);
    WayOutStep(degree, states[i], events[i], states[i + 1], p, x);
  }

  lemma KillMarks(s: Kernel, p: Place, x: Pid, t: Kernel)
    requires Next(s, Kill(p, x), t) && (p == Sleep || p == Interrupt)
    ensures OnItsWayOut(t, p, x)
  {
  }

  lemma {:induction false} StaysOnItsWayOut(degree: nat, events: seq<Event>, states: seq<Kernel>, k: nat, i: nat,
                                            p: Place, x: Pid)
    requires IsRun(degree, events, states) && k < i <= |events| && events[k] == Kill(p, x)
    requires p == Sleep || p == Interrupt
    ensures OnItsWayOut(states[i], p, x)
  {
    if k == i - 1 {
      KillMarks(states[k], p, x, states[i]);
    } else {
      StaysOnItsWayOut(degree, events, states, k, i - 1, p, x);
      WayOutInRun(degree, events, states, i - 1, p, x);
    }
  }

  /** Over every run, a process that the console kills while it sleeps or is interrupted stays there or is gone, for
      ever: it is never ready and never runs again. */
  lemma KilledNeverReturns(degree: nat, events: seq<Event>, states: seq<Kernel>, k: nat, i: nat, p: Place, x: Pid)
    requires IsRun(degree, events, states) && k < i <= |events| && events[k] == Kill(p, x)
    requires p == Sleep || p == Interrupt
    ensures PlaceOf(states[i], x) == Somewhere(p) || PlaceOf(states[i], x) == Nowhere
  {
    StaysOnItsWayOut(degree, events, states, k, i, p, x);
    QueuesStayInOrder(degree, events, states, i);
    if x in In(states[i], p) {
      PlaceIs(states[i], x, p);
    } else {
      PlaceIsNowhere(states[i], x);
    }
  }

  lemma NotThere(s: Kernel, x: Pid, p: Place)
    requires Partition(s.lists, s.live) && PlaceOf(s, x) != Somewhere(p)
    ensures x !in In(s, p)
  {
    if x in In(s, p) {
      PlaceIs(s, x, p);
    }
  }

  /** And the step that takes it away is the end of its wait, which gives its place of grd_mult back. */
  lemma KilledLeavesAtTheEnd(degree: nat, events: seq<Event>, states: seq<Kernel>, k: nat, i: nat, p: Place, x: Pid)
    requires IsRun(degree, events, states) && k < i < |events| && events[k] == Kill(p, x)
    requires p == Sleep || p == Interrupt
    requires PlaceOf(states[i], x) == Somewhere(p) && PlaceOf(states[i + 1], x) != Somewhere(p)
    ensures events[i] == Wake(p, x) && PlaceOf(states[i + 1], x) == Nowhere && states[i + 1].grd == states[i].grd + 1
  {
    StaysOnItsWayOut(degree, events, states, k, i, p, x);
    KilledNeverReturns(degree, events, states, k, i + 1, p, x);
    QueuesStayInOrder(degree, events, states, i);
    QueuesStayInOrder(degree, events, states, i + 1);
    WayOutInRun(degree, events, states, i, p, x);
    NotThere(states[i + 1], x, p);
  }
}
