/** Counted resources: wait, signal, the thread that serves freed instances, and what a removed process gives back. */
module Resources {
  import opened Paging

  /** pids: the recorded holdings. blocked: blocked_list. */
  datatype Block = Block(instances: int, pids: map<Pid, int>, blocked: seq<Pid>)

  /** posts: the value of freed_resource. live: the processes not yet removed. */
  datatype Table = Table(blocks: map<string, Block>, posts: nat, live: set<Pid>)

  // ----- the handlers

  /** use_instance_of_resource. */
  function Used(b: Block, pid: Pid): Block {
    b.(instances := b.instances - 1, pids := b.pids[pid := if pid in b.pids then b.pids[pid] + 1 else 1])
  }

  function Returned(b: Block, pid: Pid): Block
    requires pid in b.pids
  {
    b.(instances := b.instances + 1,
       pids := if b.pids[pid] - 1 == 0 then b.pids - {pid} else b.pids[pid := b.pids[pid] - 1])
  }

  function WaitOn(b: Block, pid: Pid): Block {
    if b.instances > 0 then Used(b, pid) else b.(blocked := b.blocked + [pid])
  }

  /** What one turn of unblock_processes does to a block. */
  function Served(b: Block): Block {
    if b.instances >= 1 && |b.blocked| >= 1 then Used(b.(blocked := b.blocked[1..]), b.blocked[0]) else b
  }

  /** What eliminar_proceso does to a block. */
  function Freed(b: Block, pid: Pid): Block {
    if pid in b.pids then b.(instances := b.instances + b.pids[pid], pids := b.pids - {pid}) else b
  }

  /** finalizar_proceso takes the process out of the list it is blocked in, if any; eliminar_proceso gives its
      instances back. */
  function Cleared(b: Block, pid: Pid): Block {
    Freed(b.(blocked := RemoveFirst(b.blocked, pid)), pid)
  }

  function HeldBy(s: Table, pid: Pid): set<string> {
    set r | r in s.blocks && pid in s.blocks[r].pids
  }

  function Wait(s: Table, pid: Pid, r: string): Table
    requires r in s.blocks
  {
    s.(blocks := s.blocks[r := WaitOn(s.blocks[r], pid)])
  }

  function Signal(s: Table, pid: Pid, r: string): Table
    requires r in s.blocks && pid in s.blocks[r].pids
  {
    s.(blocks := s.blocks[r := Returned(s.blocks[r], pid)], posts := s.posts + 1)
  }

  /** One turn of unblock_processes, over every resource. */
  function Unblock(s: Table): Table
    requires s.posts > 0
  {
    s.(blocks := map r | r in s.blocks :: Served(s.blocks[r]), posts := s.posts - 1)
  }

  /** One post for each resource of which the process held any number of instances. */
  function Remove(s: Table, pid: Pid): Table {
    s.(blocks := map r | r in s.blocks :: Cleared(s.blocks[r], pid),
       posts := s.posts + |HeldBy(s, pid)|, live := s.live - {pid})
  }

  // ----- runs

  predicate IsBlocked(s: Table, pid: Pid) {
    exists r :: r in s.blocks && pid in s.blocks[r].blocked
  }

  /** Waited and Signaled on an unknown resource, and Signaled without an instance, send the process to EXIT. */
  datatype Event =
    | Started(pid: Pid)
    | Waited(pid: Pid, r: string)
    | Signaled(pid: Pid, r: string)
    | Unblocking
    | Removed(pid: Pid)

  ghost predicate Next(s: Table, e: Event, t: Table) {
    match e
    case Started(pid) => pid !in s.live && t == s.(live := s.live + {pid})
    case Waited(pid, r) => pid in s.live && !IsBlocked(s, pid) && t == if r in s.blocks then Wait(s, pid, r) else s
    case Signaled(pid, r) =>
      pid in s.live && !IsBlocked(s, pid) &&
      t == if r in s.blocks && pid in s.blocks[r].pids then Signal(s, pid, r) else s
    case Unblocking => s.posts > 0 && t == Unblock(s)
    case Removed(pid) => pid in s.live && t == Remove(s, pid)
  }

  /** The configured resources with their instances, and no process. */
  ghost predicate Initial(totals: map<string, nat>, s: Table) {
    s == Table(map r | r in totals :: Block(totals[r], map[], []), 0, {})
  }

  ghost predicate IsRun(totals: map<string, nat>, events: seq<Event>, states: seq<Table>) {
    && |states| == |events| + 1
    && Initial(totals, states[0])
    && (forall i :: 0 <= i < |events| ==> Next(states[i], events[i], states[i + 1]))
  }

  // ----- what every run keeps

  ghost function Sum(m: map<Pid, int>): int
    decreases |m|
  {
    if m == map[] then 0
    else
      var p :| p in m;
      assert |m - {p}| < |m| by { Smaller(m, p); }
      m[p] + Sum(m - {p})
  }

  lemma Smaller(m: map<Pid, int>, p: Pid)
    requires p in m
    ensures |m - {p}| < |m|
  {
    assert (m - {p}).Keys == m.Keys - {p};
    assert |m.Keys - {p}| < |m.Keys|;
  }

  lemma {:induction false} SumTake(m: map<Pid, int>, p: Pid)
    requires p in m
    ensures Sum(m) == m[p] + Sum(m - {p})
    decreases |m|
  {
    var q :| q in m && Sum(m) == m[q] + Sum(m - {q});
    if q != p {
      Smaller(m, q);
      Smaller(m, p);
      SumTake(m - {q}, p);
      SumTake(m - {p}, q);
      assert m - {q} - {p} == m - {p} - {q};
    }
  }

  lemma SumPut(m: map<Pid, int>, p: Pid, v: int)
    ensures Sum(m[p := v]) == v + Sum(m - {p})
  {
    SumTake(m[p := v], p);
    assert m[p := v] - {p} == m - {p};
  }

  /** Nothing is lost or made: free instances and holdings add up to the configured total. */
  ghost predicate Conserved(total: nat, b: Block) {
    && b.instances >= 0
    && (forall p :: p in b.pids ==> b.pids[p] > 0)
    && b.instances + Sum(b.pids) == total
  }

  ghost predicate OwnQueue(blocks: map<string, Block>, live: set<Pid>) {
    && (forall r, p :: r in blocks && p in blocks[r].pids ==> p in live)
    && (forall r, p :: r in blocks && p in blocks[r].blocked ==> p in live)
    && (forall r :: r in blocks ==> NoDuplicates(blocks[r].blocked))
    && (forall r, u, p :: r in blocks && u in blocks && p in blocks[r].blocked && p in blocks[u].blocked ==> r == u)
  }

  ghost predicate Inv(totals: map<string, nat>, s: Table) {
    && s.blocks.Keys == totals.Keys
    && (forall r :: r in s.blocks ==> Conserved(totals[r], s.blocks[r]))
    && OwnQueue(s.blocks, s.live)
  }

  // ----- one block

  lemma UsedConserves(total: nat, b: Block, pid: Pid)
    requires Conserved(total, b) && b.instances > 0
    ensures Conserved(total, Used(b, pid))
  {
    SumPut(b.pids, pid, Used(b, pid).pids[pid]);
    if pid in b.pids {
      SumTake(b.pids, pid);
    } else {
      assert b.pids - {pid} == b.pids;
    }
  }

  lemma ReturnedConserves(total: nat, b: Block, pid: Pid)
    requires Conserved(total, b) && pid in b.pids
    ensures Conserved(total, Returned(b, pid))
  {
    SumTake(b.pids, pid);
    SumPut(b.pids, pid, b.pids[pid] - 1);
  }

  lemma ServedConserves(total: nat, b: Block)
    requires Conserved(total, b)
    ensures Conserved(total, Served(b))
  {
    if b.instances >= 1 && |b.blocked| >= 1 {
      UsedConserves(total, b.(blocked := b.blocked[1..]), b.blocked[0]);
    }
  }

  lemma ClearedConserves(total: nat, b: Block, pid: Pid)
    requires Conserved(total, b)
    ensures Conserved(total, Cleared(b, pid)) && pid !in Cleared(b, pid).pids
  {
    if pid in b.pids {
      SumTake(b.pids, pid);
    }
  }

  lemma {:induction false} RemoveFirstDistinct<T>(s: seq<T>, x: T)
    requires NoDuplicates(s)
    ensures NoDuplicates(RemoveFirst(s, x)) && forall y :: y in RemoveFirst(s, x) <==> y in s && y != x
  {
    if s != [] && s[0] != x {
      RemoveFirstDistinct(s[1..], x);
      var r := RemoveFirst(s[1..], x);
      assert forall y :: y in [s[0]] + r <==> y == s[0] || y in r;
      assert s[0] !in s[1..];
    }
  }

  // ----- one step

  lemma WaitOwnQueue(s: Table, pid: Pid, r: string)
    requires OwnQueue(s.blocks, s.live) && pid in s.live && !IsBlocked(s, pid) && r in s.blocks
    ensures OwnQueue(Wait(s, pid, r).blocks, s.live)
  {
    var t := Wait(s, pid, r);
    assert forall u, p ::
      u in t.blocks && p in t.blocks[u].blocked ==> p in s.blocks[u].blocked || (p == pid && u == r);
    assert forall u :: u in s.blocks ==> pid !in s.blocks[u].blocked;
  }

  lemma WaitKeeps(totals: map<string, nat>, s: Table, pid: Pid, r: string)
    requires Inv(totals, s) && pid in s.live && !IsBlocked(s, pid) && r in s.blocks
    ensures Inv(totals, Wait(s, pid, r))
  {
    WaitOwnQueue(s, pid, r);
    if s.blocks[r].instances > 0 {
      UsedConserves(totals[r], s.blocks[r], pid);
    }
  }

  lemma SignalKeeps(totals: map<string, nat>, s: Table, pid: Pid, r: string)
    requires Inv(totals, s) && r in s.blocks && pid in s.blocks[r].pids
    ensures Inv(totals, Signal(s, pid, r))
  {
    ReturnedConserves(totals[r], s.blocks[r], pid);
  }

  lemma UnblockOwnQueue(s: Table)
    requires OwnQueue(s.blocks, s.live) && s.posts > 0
    ensures OwnQueue(Unblock(s).blocks, s.live)
  {
    var t := Unblock(s);
    assert forall r ::
      r in s.blocks ==> t.blocks[r].blocked == s.blocks[r].blocked || t.blocks[r].blocked == s.blocks[r].blocked[1..];
    assert forall r, p :: r in t.blocks && p in t.blocks[r].blocked ==> p in s.blocks[r].blocked;
  }

  lemma UnblockKeeps(totals: map<string, nat>, s: Table)
    requires Inv(totals, s) && s.posts > 0
    ensures Inv(totals, Unblock(s))
  {
    var t := Unblock(s);
    forall r | r in t.blocks ensures Conserved(totals[r], t.blocks[r]) {
      ServedConserves(totals[r], s.blocks[r]);
    }
    UnblockOwnQueue(s);
  }

  lemma RemoveKeeps(totals: map<string, nat>, s: Table, pid: Pid)
    requires Inv(totals, s)
    ensures Inv(totals, Remove(s, pid)) && HeldBy(Remove(s, pid), pid) == {} && !IsBlocked(Remove(s, pid), pid)
  {
    var t := Remove(s, pid);
    forall r | r in s.blocks
      ensures Conserved(totals[r], t.blocks[r]) && pid !in t.blocks[r].pids && NoDuplicates(t.blocks[r].blocked)
      ensures forall y :: y in t.blocks[r].blocked <==> y in s.blocks[r].blocked && y != pid
    {
      ClearedConserves(totals[r], s.blocks[r], pid);
      RemoveFirstDistinct(s.blocks[r].blocked, pid);
    }
  }

  lemma NextKeeps(totals: map<string, nat>, s: Table, e: Event, t: Table)
    requires Inv(totals, s) && Next(s, e, t)
    ensures Inv(totals, t)
  {
    match e
    case Started(pid) =>
    case Waited(pid, r) => if r in s.blocks { WaitKeeps(totals, s, pid, r); }
    case Signaled(pid, r) => if r in s.blocks && pid in s.blocks[r].pids { SignalKeeps(totals, s, pid, r); }
    case Unblocking => UnblockKeeps(totals, s);
    case Removed(pid) => RemoveKeeps(totals, s, pid);
  }

  /** Main invariant: in every state of every run the free instances of a resource plus all recorded holdings are its
      configured total, none of them negative, and a process waits in at most one place of one list. */
  lemma {:induction false} ResourcesAreConserved(totals: map<string, nat>, events: seq<Event>, states: seq<Table>,
                                                 i: nat)
    requires IsRun(totals, events, states) && i <= |events|
    ensures Inv(totals, states[i])
  {
    if i > 0 {
      ResourcesAreConserved(totals, events, states, i - 1);
      NextKeeps(totals, states[i - 1], events[i - 1], states[i]);
    }
  }

  /** And a removed process holds nothing, in that state and until a process with its pid starts. */
  lemma RemovedHoldsNothing(totals: map<string, nat>, events: seq<Event>, states: seq<Table>, i: nat, pid: Pid)
    requires IsRun(totals, events, states) && i <= |events| && pid !in states[i].live
    ensures HeldBy(states[i], pid) == {} && !IsBlocked(states[i], pid)
  {
    ResourcesAreConserved(totals, events, states, i);
  }

  // ----- wake-ups

  function Min(a: int, b: int): int {
    if a <= b then a else b
  }

  /** Of the blocked processes that an instance is free for, as many as there are posts will be looked for. */
  ghost predicate NoLostWakeUp(s: Table) {
    forall r :: r in s.blocks ==> Min(s.blocks[r].instances, |s.blocks[r].blocked|) <= s.posts
  }

  /** The process holds no more instances of any resource than it holds resources. */
  predicate Modest(s: Table, pid: Pid) {
    forall r :: r in HeldBy(s, pid) ==> s.blocks[r].pids[pid] <= |HeldBy(s, pid)|
  }

  lemma {:induction false} RemoveFirstShorter<T>(s: seq<T>, x: T)
    ensures |RemoveFirst(s, x)| <= |s|
  {
    if s != [] && s[0] != x {
      RemoveFirstShorter(s[1..], x);
    }
  }

  lemma RemoveKeepsWakeUps(s: Table, pid: Pid)
    requires NoLostWakeUp(s) && Modest(s, pid)
    ensures NoLostWakeUp(Remove(s, pid))
  {
    var t := Remove(s, pid);
    forall r | r in t.blocks ensures Min(t.blocks[r].instances, |t.blocks[r].blocked|) <= t.posts {
      RemoveFirstShorter(s.blocks[r].blocked, pid);
      assert pid in s.blocks[r].pids ==> r in HeldBy(s, pid);
    }
  }

  lemma NextKeepsWakeUps(totals: map<string, nat>, s: Table, e: Event, t: Table)
    requires Inv(totals, s) && Next(s, e, t) && NoLostWakeUp(s) && (e.Removed? ==> Modest(s, e.pid))
    ensures NoLostWakeUp(t)
  {
    if e.Removed? {
      RemoveKeepsWakeUps(s, e.pid);
    } else {
      forall r | r in t.blocks ensures Min(t.blocks[r].instances, |t.blocks[r].blocked|) <= t.posts {
        assert Min(s.blocks[r].instances, |s.blocks[r].blocked|) <= s.posts;
      }
    }
  }

  ghost predicate ModestRemovals(events: seq<Event>, states: seq<Table>)
    requires |states| == |events| + 1
  {
    forall i :: 0 <= i < |events| && events[i].Removed? ==> Modest(states[i], events[i].pid)
  }

  /** With no post left, nobody waits in front of a free instance. */
  ghost predicate NobodyForgotten(s: Table) {
    forall r :: r in s.blocks && s.blocks[r].blocked != [] ==> s.blocks[r].instances == 0
  }

  lemma QuietMeansNoneWaits(totals: map<string, nat>, s: Table)
    requires Inv(totals, s) && NoLostWakeUp(s) && s.posts == 0
    ensures NobodyForgotten(s)
  {
    forall r | r in s.blocks && s.blocks[r].blocked != [] ensures s.blocks[r].instances == 0 {
      assert Conserved(totals[r], s.blocks[r]);
      assert Min(s.blocks[r].instances, |s.blocks[r].blocked|) <= 0;
    }
  }

  lemma NoneLostAtFirst(totals: map<string, nat>, s: Table)
    requires Initial(totals, s)
    ensures NoLostWakeUp(s)
  {
    assert forall r :: r in s.blocks ==> s.blocks[r].blocked == [];
  }

  lemma ModestSoFar(events: seq<Event>, states: seq<Table>, i: nat)
    requires |states| == |events| + 1 && ModestRemovals(events, states) && i < |events|
    ensures events[i].Removed? ==> Modest(states[i], events[i].pid)
  {
  }

  /** No wake-up is lost in any run whose removed processes are modest... */
  lemma {:induction false} NoWakeUpIsLost(totals: map<string, nat>, events: seq<Event>, states: seq<Table>, i: nat)
    requires IsRun(totals, events, states) && ModestRemovals(events, states) && i <= |events|
    ensures NoLostWakeUp(states[i])
  {
    if i == 0 {
      NoneLostAtFirst(totals, states[0]);
    } else {
      NoWakeUpIsLost(totals, events, states, i - 1);
      ResourcesAreConserved(totals, events, states, i - 1);
      ModestSoFar(events, states, i - 1);
      NextKeepsWakeUps(totals, states[i - 1], events[i - 1], states[i]);
    }
  }

  /** ...and so, whenever no post is left, nobody waits in front of a free instance... */
  lemma NobodyIsForgotten(totals: map<string, nat>, events: seq<Event>, states: seq<Table>, i: nat)
    requires IsRun(totals, events, states) && ModestRemovals(events, states) && i <= |events|
    ensures states[i].posts == 0 ==> NobodyForgotten(states[i])
  {
    NoWakeUpIsLost(totals, events, states, i);
    ResourcesAreConserved(totals, events, states, i);
    if states[i].posts == 0 {
      QuietMeansNoneWaits(totals, states[i]);
    }
  }

  // ----- what the handlers do, told from holdings and queues

  function Holding(s: Table, pid: Pid, r: string): int {
    if r in s.blocks && pid in s.blocks[r].pids then s.blocks[r].pids[pid] else 0
  }

  function QueueOf(s: Table, r: string): seq<Pid> {
    if r in s.blocks then s.blocks[r].blocked else []
  }

  function OneIf(b: bool): int {
    if b then 1 else 0
  }

  /** WAIT takes an instance if there is one and blocks at the end of the queue if there is none. */
  lemma WaitOutcome(totals: map<string, nat>, s: Table, pid: Pid, r: string)
    requires Inv(totals, s) && r in s.blocks && !IsBlocked(s, pid)
    ensures var t, free := Wait(s, pid, r), s.blocks[r].instances > 0;
      && (forall p, u :: Holding(t, p, u) == Holding(s, p, u) + OneIf(free && p == pid && u == r))
      && (forall u :: QueueOf(t, u) == QueueOf(s, u) + if !free && u == r then [pid] else [])
      && (IsBlocked(t, pid) <==> !free) && t.posts == s.posts
  {
    var t := Wait(s, pid, r);
    if s.blocks[r].instances <= 0 {
      assert pid in t.blocks[r].blocked;
    } else {
      assert forall u :: u in t.blocks ==> t.blocks[u].blocked == s.blocks[u].blocked;
    }
  }

  /** SIGNAL gives one instance back and posts once; whoever holds none keeps none. */
  lemma SignalOutcome(totals: map<string, nat>, s: Table, pid: Pid, r: string)
    requires Inv(totals, s) && r in s.blocks && pid in s.blocks[r].pids
    ensures var t := Signal(s, pid, r);
      && (forall p, u :: Holding(t, p, u) == Holding(s, p, u) - OneIf(p == pid && u == r))
      && (forall u :: QueueOf(t, u) == QueueOf(s, u))
      && t.blocks[r].instances == s.blocks[r].instances + 1 && t.posts == s.posts + 1
  {
    assert Conserved(totals[r], s.blocks[r]);
  }

  /** One post serves the head of every queue whose resource has an instance, and nobody else. */
  lemma UnblockOutcome(totals: map<string, nat>, s: Table, r: string)
    requires Inv(totals, s) && s.posts > 0 && r in s.blocks
    ensures var t, serves := Unblock(s), s.blocks[r].instances >= 1 && s.blocks[r].blocked != [];
      && (forall p :: Holding(t, p, r) == Holding(s, p, r) + OneIf(serves && p == s.blocks[r].blocked[0]))
      && QueueOf(t, r) == (if serves then QueueOf(s, r)[1..] else QueueOf(s, r))
  {
  }

  /** A removal gives everything back, and touches no other process. */
  lemma RemoveOutcome(totals: map<string, nat>, s: Table, pid: Pid, r: string)
    requires Inv(totals, s) && r in s.blocks
    ensures var t := Remove(s, pid);
      && t.blocks[r].instances == s.blocks[r].instances + Holding(s, pid, r)
      && (forall p :: Holding(t, p, r) == if p == pid then 0 else Holding(s, p, r))
      && (forall p :: p in QueueOf(t, r) <==> p in QueueOf(s, r) && p != pid)
  {
    RemoveFirstDistinct(s.blocks[r].blocked, pid);
  }

  // ----- the order of service

  predicate Before(queue: seq<Pid>, p: Pid, q: Pid) {
    exists a, b :: 0 <= a < b < |queue| && queue[a] == p && queue[b] == q
  }

  lemma BeforeInTail(queue: seq<Pid>, p: Pid, q: Pid)
    requires NoDuplicates(queue) && Before(queue, p, q) && p in queue[1..]
    ensures Before(queue[1..], p, q)
  {
    var a, b :| 0 <= a < b < |queue| && queue[a] == p && queue[b] == q;
    assert a > 0;
    assert queue[1..][a - 1] == p && queue[1..][b - 1] == q;
  }

  lemma BeforeWhenJoined(queue: seq<Pid>, more: seq<Pid>, p: Pid, q: Pid)
    requires Before(queue, p, q)
    ensures Before(queue + more, p, q)
  {
    var a, b :| 0 <= a < b < |queue| && queue[a] == p && queue[b] == q;
    assert (queue + more)[a] == p && (queue + more)[b] == q;
  }

  lemma {:induction false} BeforeWhenRemoved(queue: seq<Pid>, x: Pid, p: Pid, q: Pid)
    requires NoDuplicates(queue) && Before(queue, p, q) && x != p && x != q
    ensures Before(RemoveFirst(queue, x), p, q)
  {
    var a, b :| 0 <= a < b < |queue| && queue[a] == p && queue[b] == q;
    if queue[0] == x {
      assert queue[1..][a - 1] == p && queue[1..][b - 1] == q;
    } else {
      var rest := RemoveFirst(queue[1..], x);
      RemoveFirstDistinct(queue[1..], x);
      if a == 0 {
        assert queue[1..][b - 1] == q;
        assert q in queue[1..] && q in rest;
        var k :| 0 <= k < |rest| && rest[k] == q;
        assert ([queue[0]] + rest)[0] == p && ([queue[0]] + rest)[k + 1] == q;
      } else {
        assert queue[1..][a - 1] == p && queue[1..][b - 1] == q;
        BeforeWhenRemoved(queue[1..], x, p, q);
        var k, l :| 0 <= k < l < |rest| && rest[k] == p && rest[l] == q;
        assert ([queue[0]] + rest)[k + 1] == p && ([queue[0]] + rest)[l + 1] == q;
      }
    }
  }

  lemma StillBehind(totals: map<string, nat>, s: Table, e: Event, t: Table, p: Pid, q: Pid, r: string)
    requires Inv(totals, s) && Next(s, e, t) && Before(QueueOf(s, r), p, q) && p in QueueOf(t, r) && e != Removed(q)
    ensures Before(QueueOf(t, r), p, q)
  {
    assert r in s.blocks;
    match e
    case Started(_) =>
    case Waited(pid, u) =>
      if u in s.blocks {
        WaitOutcome(totals, s, pid, u);
        BeforeWhenJoined(QueueOf(s, r), if s.blocks[u].instances <= 0 && u == r then [pid] else [], p, q);
      }
    case Signaled(pid, u) =>
      if u in s.blocks && pid in s.blocks[u].pids {
        SignalOutcome(totals, s, pid, u);
        assert QueueOf(t, r) == QueueOf(s, r);
      }
    case Unblocking =>
      UnblockOutcome(totals, s, r);
      if QueueOf(t, r) != QueueOf(s, r) {
        BeforeInTail(QueueOf(s, r), p, q);
      }
    case Removed(pid) =>
      RemoveOutcome(totals, s, pid, r);
      BeforeWhenRemoved(QueueOf(s, r), pid, p, q);
  }

  /** Nobody is overtaken, over every run: as long as a process waits for a resource, whoever came to its queue later
      and is not removed waits behind it. */
  lemma {:induction false} NobodyIsOvertaken(totals: map<string, nat>, events: seq<Event>, states: seq<Table>, i: nat,
                                             j: nat, p: Pid, q: Pid, r: string)
    requires IsRun(totals, events, states) && i <= j <= |events| && Before(QueueOf(states[i], r), p, q)
    requires forall k :: i <= k <= j ==> p in QueueOf(states[k], r)
    requires forall k :: i <= k < j ==> events[k] != Removed(q)
    ensures Before(QueueOf(states[j], r), p, q)
  {
    if i < j {
      NobodyIsOvertaken(totals, events, states, i, j - 1, p, q, r);
      ResourcesAreConserved(totals, events, states, j - 1);
      StillBehind(totals, states[j - 1], events[j - 1], states[j], p, q, r);
    }
  }

  // ----- exactly which removals are safe

  ghost predicate SameHoldings(s: Table, t: Table, pid: Pid) {
    && s.blocks.Keys == t.blocks.Keys
    && (forall r :: r in s.blocks ==> (pid in s.blocks[r].pids <==> pid in t.blocks[r].pids))
    && (forall r :: r in s.blocks && pid in s.blocks[r].pids ==> s.blocks[r].pids[pid] == t.blocks[r].pids[pid])
  }

  /** Removing a process with these holdings loses no wake-up, whatever the other processes do. */
  ghost predicate SafeToRemove(s: Table, pid: Pid) {
    forall totals, t :: Inv(totals, t) && SameHoldings(s, t, pid) && NoLostWakeUp(t) ==> NoLostWakeUp(Remove(t, pid))
  }

  lemma SameHeldBy(s: Table, t: Table, pid: Pid)
    requires SameHoldings(s, t, pid)
    ensures HeldBy(s, pid) == HeldBy(t, pid)
  {
  }

  /** As many waiters, other than the process, as the resource has instances in its hands. */
  function Crowd(pid: Pid, n: nat): (q: seq<Pid>)
    ensures |q| == n && NoDuplicates(q) && forall i :: 0 <= i < n ==> q[i] > pid
  {
    seq(n, i => pid + 1 + i)
  }

  function CrowdedBlock(b: Block, pid: Pid, crowded: bool): Block {
    if pid in b.pids then
      Block(0, map[pid := b.pids[pid]], if crowded && b.pids[pid] >= 0 then Crowd(pid, b.pids[pid]) else [])
    else Block(0, map[], [])
  }

  lemma CrowdedConserves(b: Block, pid: Pid, crowded: bool)
    requires pid in b.pids ==> b.pids[pid] > 0
    ensures Conserved(if pid in b.pids && b.pids[pid] >= 0 then b.pids[pid] else 0, CrowdedBlock(b, pid, crowded))
  {
    if pid in b.pids {
      var none: map<Pid, int> := map[];
      SumPut(none, pid, b.pids[pid]);
      assert none[pid := b.pids[pid]] == map[pid := b.pids[pid]];
      assert none - {pid} == none;
    }
  }

  /** Nobody but the process holds anything, and its instances of u are all waited for. */
  function Crowded(s: Table, pid: Pid, u: string): Table
    requires u in HeldBy(s, pid) && s.blocks[u].pids[pid] >= 0
  {
    Table(map r | r in s.blocks :: CrowdedBlock(s.blocks[r], pid, r == u), 0,
          {pid} + set p | p in Crowd(pid, s.blocks[u].pids[pid]))
  }

  function CrowdTotals(s: Table, pid: Pid): map<string, nat> {
    map r | r in s.blocks :: if pid in s.blocks[r].pids && s.blocks[r].pids[pid] >= 0 then s.blocks[r].pids[pid] else 0
  }

  lemma CrowdedQueues(s: Table, pid: Pid, u: string)
    requires u in HeldBy(s, pid) && s.blocks[u].pids[pid] >= 0
    ensures OwnQueue(Crowded(s, pid, u).blocks, Crowded(s, pid, u).live)
    ensures NoLostWakeUp(Crowded(s, pid, u))
  {
    var t := Crowded(s, pid, u);
    assert forall r :: r in t.blocks && r != u ==> t.blocks[r].blocked == [];
    assert t.blocks[u].blocked == Crowd(pid, s.blocks[u].pids[pid]);
  }

  lemma CrowdedInv(totals: map<string, nat>, s: Table, pid: Pid, u: string)
    requires Inv(totals, s) && u in HeldBy(s, pid)
    ensures Inv(CrowdTotals(s, pid), Crowded(s, pid, u))
    ensures SameHoldings(s, Crowded(s, pid, u), pid) && NoLostWakeUp(Crowded(s, pid, u))
  {
    var sums, t := CrowdTotals(s, pid), Crowded(s, pid, u);
    forall r | r in t.blocks ensures Conserved(sums[r], t.blocks[r]) {
      CrowdedConserves(s.blocks[r], pid, r == u);
    }
    CrowdedQueues(s, pid, u);
  }

  lemma CrowdLosesWakeUp(totals: map<string, nat>, s: Table, pid: Pid, u: string)
    requires Inv(totals, s) && u in HeldBy(s, pid) && s.blocks[u].pids[pid] > |HeldBy(s, pid)|
    ensures !SafeToRemove(s, pid)
  {
    var t := Crowded(s, pid, u);
    CrowdedInv(totals, s, pid, u);
    CrowdedRemoved(s, pid, u);
    SameHeldBy(s, t, pid);
  }

  lemma CrowdedRemoved(s: Table, pid: Pid, u: string)
    requires u in HeldBy(s, pid) && s.blocks[u].pids[pid] >= 0
    ensures var b := Remove(Crowded(s, pid, u), pid).blocks[u];
      b.instances == s.blocks[u].pids[pid] && |b.blocked| == s.blocks[u].pids[pid]
  {
    RemoveFirstAbsent(Crowd(pid, s.blocks[u].pids[pid]), pid);
  }

  lemma {:induction false} RemoveFirstAbsent<T>(s: seq<T>, x: T)
    requires x !in s
    ensures RemoveFirst(s, x) == s
  {
    if s != [] {
      RemoveFirstAbsent(s[1..], x);
    }
  }

  /** ...and only of those: a removal is safe in every state exactly if the process holds no more instances of any
      resource than it holds resources. */
  lemma SafeToRemoveIff(totals: map<string, nat>, s: Table, pid: Pid)
    requires Inv(totals, s)
    ensures SafeToRemove(s, pid) <==> Modest(s, pid)
  {
    if Modest(s, pid) {
      forall sums, t | Inv(sums, t) && SameHoldings(s, t, pid) && NoLostWakeUp(t) ensures NoLostWakeUp(Remove(t, pid)) {
        SameHeldBy(s, t, pid);
        assert forall r :: r in HeldBy(t, pid) ==> t.blocks[r].pids[pid] == s.blocks[r].pids[pid];
        RemoveKeepsWakeUps(t, pid);
      }
    } else {
      var u :| u in HeldBy(s, pid) && s.blocks[u].pids[pid] > |HeldBy(s, pid)|;
      CrowdLosesWakeUp(totals, s, pid, u);
    }
  }

  // ----- a run that loses a wake-up

  /** A system with one resource. */
  function Single(b: Block, posts: nat, live: set<Pid>): Table {
    Table(map["r" := b], posts, live)
  }

  lemma SingleStarts(b: Block, live: set<Pid>, pid: Pid)
    requires pid !in live
    ensures Next(Single(b, 0, live), Started(pid), Single(b, 0, live + {pid}))
  {
  }

  lemma SingleWaits(b: Block, c: Block, live: set<Pid>, pid: Pid)
    requires pid in live && pid !in b.blocked && c == WaitOn(b, pid)
    ensures Next(Single(b, 0, live), Waited(pid, "r"), Single(c, 0, live))
  {
  }

  lemma SingleRemoves(b: Block, c: Block, live: set<Pid>, pid: Pid)
    requires pid in live && pid in b.pids && c == Cleared(b, pid)
    ensures Next(Single(b, 0, live), Removed(pid), Single(c, 1, live - {pid}))
  {
    assert HeldBy(Single(b, 0, live), pid) == {"r"};
    assert Remove(Single(b, 0, live), pid).blocks == map["r" := c];
  }

  lemma SingleServes(b: Block, c: Block, live: set<Pid>)
    requires c == Served(b)
    ensures Next(Single(b, 1, live), Unblocking, Single(c, 0, live))
  {
    assert Unblock(Single(b, 1, live)).blocks == map["r" := c];
  }

  lemma RunGoesOn(totals: map<string, nat>, events: seq<Event>, states: seq<Table>, s: Table, e: Event, t: Table)
    requires IsRun(totals, events, states) && states[|events|] == s && Next(s, e, t)
    ensures IsRun(totals, events + [e], states + [t]) && (states + [t])[|events + [e]|] == t
  {
  }

  lemma SingleInitial(n: nat)
    ensures Initial(map["r" := n], Single(Block(n, map[], []), 0, {}))
  {
    assert (map r | r in map["r" := n] :: Block(map["r" := n][r], map[], [])) == map["r" := Block(n, map[], [])];
  }

  /** The first three processes start. */
  lemma ThreeStart(b: Block, n: nat) returns (events: seq<Event>, states: seq<Table>)
    requires b == Block(n, map[], [])
    ensures IsRun(map["r" := n], events, states) && states[|events|] == Single(b, 0, {1, 2, 3})
  {
    var totals := map["r" := n];
    SingleInitial(n);
    events, states := [], [Single(b, 0, {})];
    SingleStarts(b, {}, 1);
    assert {} + {1} == {1};
    RunGoesOn(totals, events, states, Single(b, 0, {}), Started(1), Single(b, 0, {1}));
    events, states := events + [Started(1)], states + [Single(b, 0, {1})];
    SingleStarts(b, {1}, 2);
    assert {1} + {2} == {1, 2};
    RunGoesOn(totals, events, states, Single(b, 0, {1}), Started(2), Single(b, 0, {1, 2}));
    events, states := events + [Started(2)], states + [Single(b, 0, {1, 2})];
    SingleStarts(b, {1, 2}, 3);
    assert {1, 2} + {3} == {1, 2, 3};
    RunGoesOn(totals, events, states, Single(b, 0, {1, 2}), Started(3), Single(b, 0, {1, 2, 3}));
    events, states := events + [Started(3)], states + [Single(b, 0, {1, 2, 3})];
  }

  /** One more of them waits for the resource. */
  lemma OneWaits(totals: map<string, nat>, events: seq<Event>, states: seq<Table>, b: Block, c: Block, pid: Pid)
    returns (events': seq<Event>, states': seq<Table>)
    requires IsRun(totals, events, states) && states[|events|] == Single(b, 0, {1, 2, 3})
    requires pid in {1, 2, 3} && pid !in b.blocked && c == WaitOn(b, pid)
    ensures IsRun(totals, events', states') && states'[|events'|] == Single(c, 0, {1, 2, 3})
  {
    SingleWaits(b, c, {1, 2, 3}, pid);
    RunGoesOn(totals, events, states, Single(b, 0, {1, 2, 3}), Waited(pid, "r"), Single(c, 0, {1, 2, 3}));
    events', states' := events + [Waited(pid, "r")], states + [Single(c, 0, {1, 2, 3})];
  }

  /** Two processes wait while the first holds both instances. */
  lemma BothHeld() returns (events: seq<Event>, states: seq<Table>)
    ensures IsRun(map["r" := 2], events, states)
    ensures states[|events|] == Single(Block(0, map[1 := 2], [2, 3]), 0, {1, 2, 3})
  {
    var b0, b1, b2 := Block(2, map[], []), Block(1, map[1 := 1], []), Block(0, map[1 := 2], []);
    var b3, b4 := Block(0, map[1 := 2], [2]), Block(0, map[1 := 2], [2, 3]);
    var totals := map["r" := 2];
    events, states := ThreeStart(b0, 2);
    events, states := OneWaits(totals, events, states, b0, b1, 1);
    events, states := OneWaits(totals, events, states, b1, b2, 1);
    events, states := OneWaits(totals, events, states, b2, b3, 2);
    events, states := OneWaits(totals, events, states, b3, b4, 3);
  }

  /** One process takes both instances of a resource, two wait for it, the first is removed, and its single post is
      served: the last one waits in front of a free instance, with nothing left to wake it. */
  lemma WakeUpCanBeLost() returns (events: seq<Event>, states: seq<Table>)
    ensures IsRun(map["r" := 2], events, states)
    ensures states[|events|] == Single(Block(1, map[2 := 1], [3]), 0, {2, 3}) && !NobodyForgotten(states[|events|])
  {
    var b4, b5, b6 := Block(0, map[1 := 2], [2, 3]), Block(2, map[], [2, 3]), Block(1, map[2 := 1], [3]);
    var totals := map["r" := 2];
    var all: set<Pid> := {1, 2, 3};
    events, states := BothHeld();
    RemoveFirstAbsent([2, 3], 1);
    assert map[1 := 2] - {1} == map[];
    SingleRemoves(b4, b5, all, 1);
    assert all - {1} == {2, 3};
    RunGoesOn(totals, events, states, Single(b4, 0, all), Removed(1), Single(b5, 1, {2, 3}));
    events, states := events + [Removed(1)], states + [Single(b5, 1, {2, 3})];
    SingleServes(b5, b6, {2, 3});
    RunGoesOn(totals, events, states, Single(b5, 1, {2, 3}), Unblocking, Single(b6, 0, {2, 3}));
    events, states := events + [Unblocking], states + [Single(b6, 0, {2, 3})];
    assert "r" in states[|events|].blocks;
  }
}
