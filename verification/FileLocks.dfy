/** The kernel's queue of locks per file: each opening of a file joins a lock, the lock at the head is the one
    in force, and closing hands the file over to the next lock of the queue. */
module FileLocks {
  import opened Bytes
  import opened Paging

  /** posts: the value of the lock's semaphore. waiting: the processes whose threads wait on it. */
  datatype Lock = Lock(isWrite: bool, participants: seq<Pid>, isBlocked: bool, posts: nat, waiting: set<Pid>)

  datatype OpenFile = OpenFile(file: string, isWrite: bool)

  /** files: open_files_global_table. held: the open files of each live process that it does not wait for.
      blocked: the opening a process waits for, the last of its open files. */
  datatype Kernel = Kernel(files: map<string, seq<Lock>>, held: map<Pid, seq<OpenFile>>, blocked: map<Pid, OpenFile>)

  // ----- one queue

  /** create_lock and its is_blocked. */
  function NewLock(pid: Pid, isWrite: bool, blocked: bool): Lock {
    Lock(isWrite, [pid], blocked, 0, if blocked then {pid} else {})
  }

  function Joined(l: Lock, pid: Pid, blocked: bool): Lock {
    l.(participants := l.participants + [pid], isBlocked := blocked,
       waiting := if blocked then l.waiting + {pid} else l.waiting)
  }

  /** add_read_lock: the first read lock of the queue takes the process in, or a new one is appended. */
  function AddReadLock(q: seq<Lock>, pid: Pid, blocked: bool): (r: seq<Lock>)
    ensures |q| <= |r| <= |q| + 1
  {
    if q == [] then [NewLock(pid, false, blocked)]
    else if !q[0].isWrite then [Joined(q[0], pid, blocked)] + q[1..]
    else [q[0]] + AddReadLock(q[1..], pid, blocked)
  }

  /** The test of f_open: whether the process has to wait. */
  predicate MustWait(q: seq<Lock>, isWrite: bool) {
    q != [] && (isWrite || q[0].isWrite)
  }

  function Enqueue(q: seq<Lock>, pid: Pid, isWrite: bool): seq<Lock> {
    if isWrite then q + [NewLock(pid, true, MustWait(q, true))] else AddReadLock(q, pid, MustWait(q, false))
  }

  /** A blocked lock that becomes the head gets one post per participant. */
  function HandOver(q: seq<Lock>): seq<Lock> {
    if q != [] && q[0].isBlocked then q[0 := q[0].(posts := q[0].posts + |q[0].participants|)] else q
  }

  /** close_lock on the lock at index k: what leaves the queue is always the lock at index 0. */
  function CloseLock(q: seq<Lock>, pid: Pid, k: nat): seq<Lock>
    requires k < |q|
  {
    if q[k].isWrite then HandOver(q[1..])
    else
      var left := RemoveFirst(q[k].participants, pid);
      if left == [] then HandOver(q[1..]) else q[k := q[k].(participants := left)]
  }

  function Awake(l: Lock, pid: Pid): Lock
    requires l.posts > 0
  {
    l.(posts := l.posts - 1, waiting := l.waiting - {pid})
  }

  /** The first lock of the queue in which the process takes part. */
  function LockOf(q: seq<Lock>, pid: Pid): (r: Option<nat>)
    ensures r.Some? ==> r.value < |q| && pid in q[r.value].participants
    ensures r.Some? ==> forall i :: 0 <= i < r.value ==> pid !in q[i].participants
    ensures r.None? ==> forall i :: 0 <= i < |q| ==> pid !in q[i].participants
  {
    if q == [] then None
    else if pid in q[0].participants then Some(0)
    else
      match LockOf(q[1..], pid)
      case None => None
      case Some(i) => Some(i + 1)
  }

  // ----- the steps

  /** A process that runs, or is ready to: it waits for no file. */
  predicate Free(s: Kernel, pid: Pid) {
    pid in s.held && pid !in s.blocked
  }

  function Queue(s: Kernel, f: string): seq<Lock> {
    if f in s.files then s.files[f] else []
  }

  /** F_OPEN in mode R or W, and the thread that waits when it has to. */
  function Open(s: Kernel, pid: Pid, e: OpenFile): Kernel
    requires Free(s, pid)
  {
    var q := Queue(s, e.file);
    var t := s.(files := s.files[e.file := Enqueue(q, pid, e.isWrite)]);
    if MustWait(q, e.isWrite) then t.(blocked := s.blocked[pid := e]) else t.(held := s.held[pid := s.held[pid] + [e]])
  }

  /** A waiting thread takes a post of its lock. */
  function Wake(s: Kernel, pid: Pid, i: nat): Kernel
    requires pid in s.held && pid in s.blocked && i < |Queue(s, s.blocked[pid].file)|
    requires Queue(s, s.blocked[pid].file)[i].posts > 0
  {
    var e := s.blocked[pid];
    s.(files := s.files[e.file := s.files[e.file][i := Awake(s.files[e.file][i], pid)]],
       held := s.held[pid := s.held[pid] + [e]],
       blocked := s.blocked - {pid})
  }

  function FirstOf(open: seq<OpenFile>, f: string): (r: Option<OpenFile>)
    ensures r.Some? ==> r.value in open && r.value.file == f
    ensures r.None? ==> forall e :: e in open ==> e.file != f
  {
    if open == [] then None else if open[0].file == f then Some(open[0]) else FirstOf(open[1..], f)
  }

  /** The file leaves the open files of the process, and its lock at index k is closed. */
  function CloseAt(s: Kernel, pid: Pid, e: OpenFile, k: nat): Kernel
    requires pid in s.held && k < |Queue(s, e.file)|
  {
    s.(files := s.files[e.file := CloseLock(s.files[e.file], pid, k)],
       held := s.held[pid := RemoveFirst(s.held[pid], e)])
  }

  /** eliminar_proceso: every open file is closed on the first lock that has the process, then the process is gone. */
  function Eliminate(s: Kernel, pid: Pid): (r: Option<Kernel>)
    requires pid in s.held
    decreases |s.held[pid]|
  {
    if s.held[pid] == [] then Some(s.(held := s.held - {pid}))
    else
      var e := s.held[pid][0];
      match LockOf(Queue(s, e.file), pid)
      case None => None
      case Some(k) => Eliminate(CloseAt(s, pid, e, k), pid)
  }

  datatype Event =
    | Started(pid: Pid)
    | Opened(pid: Pid, e: OpenFile)
    | Woken(pid: Pid, i: nat)
    | Closed(pid: Pid, f: string)
    | Ended(pid: Pid)

  ghost predicate Next(s: Kernel, ev: Event, t: Kernel) {
    match ev
    case Started(pid) => pid !in s.held && pid !in s.blocked && t == s.(held := s.held[pid := []])
    case Opened(pid, e) => Free(s, pid) && t == Open(s, pid, e)
    case Woken(pid, i) =>
      && pid in s.held && pid in s.blocked && i < |Queue(s, s.blocked[pid].file)|
      && pid in Queue(s, s.blocked[pid].file)[i].waiting && Queue(s, s.blocked[pid].file)[i].posts > 0
      && t == Wake(s, pid, i)
    case Closed(pid, f) =>
      && Free(s, pid) && FirstOf(s.held[pid], f).Some? && Queue(s, f) != []
      && t == CloseAt(s, pid, FirstOf(s.held[pid], f).value, 0)
    case Ended(pid) => Free(s, pid) && Eliminate(s, pid) == Some(t)
  }

  ghost predicate IsRun(events: seq<Event>, states: seq<Kernel>) {
    && |states| == |events| + 1
    && states[0] == Kernel(map[], map[], map[])
    && (forall i :: 0 <= i < |events| ==> Next(states[i], events[i], states[i + 1]))
  }

  // ----- what every run keeps

  /** Every lock behind the head is blocked, unposted, and all its participants wait. */
  ghost predicate Behind(l: Lock) {
    && l.isBlocked && l.posts == 0 && |l.waiting| == |l.participants|
    && NoDuplicates(l.participants)
    && (forall p :: p in l.waiting <==> p in l.participants)
  }

  /** Nobody waits in the head without a post of his own. */
  predicate AtHead(l: Lock) {
    && l.posts == |l.waiting|
    && (forall p :: p in l.waiting ==> multiset(l.participants)[p] == 1)
  }

  ghost predicate QueueOk(q: seq<Lock>) {
    && (forall i, j :: 0 <= i < j < |q| ==> q[i].isWrite || q[j].isWrite)
    && (forall i :: 0 <= i < |q| ==> q[i].participants != [] && (q[i].isWrite ==> |q[i].participants| == 1))
    && (forall i :: 0 < i < |q| ==> Behind(q[i]))
    && (q != [] ==> AtHead(q[0]))
  }

  type Held = map<Pid, seq<OpenFile>>

  /** How many granted openings of a kind the process has. */
  function Count(held: Held, pid: Pid, e: OpenFile): nat {
    if pid in held then multiset(held[pid])[e] else 0
  }

  function One(b: bool): nat {
    if b then 1 else 0
  }

  /** The head of a queue stands for exactly the granted openings of the file and for the waiters it has released. */
  ghost predicate HeadIsGranted(held: Held, f: string, q: seq<Lock>) {
    forall pid :: Matches(held, f, q, pid)
  }

  predicate Matches(held: Held, f: string, q: seq<Lock>, pid: Pid) {
    if q == [] then Count(held, pid, OpenFile(f, false)) == 0 && Count(held, pid, OpenFile(f, true)) == 0
    else
      && multiset(q[0].participants)[pid] == Count(held, pid, OpenFile(f, q[0].isWrite)) + One(pid in q[0].waiting)
      && Count(held, pid, OpenFile(f, !q[0].isWrite)) == 0
  }

  /** Whoever waits in a lock is a live process blocked on an opening of that kind... */
  ghost predicate WaitersKnown(live: set<Pid>, blocked: map<Pid, OpenFile>, f: string, q: seq<Lock>) {
    forall i, p ::
      0 <= i < |q| && p in q[i].waiting ==> p in live && p in blocked && blocked[p] == OpenFile(f, q[i].isWrite)
  }

  /** ...and waits in no other lock. */
  ghost predicate WaitOnce(q: seq<Lock>) {
    forall i, j, p :: 0 <= i < |q| && 0 <= j < |q| && p in q[i].waiting && p in q[j].waiting ==> i == j
  }

  ghost predicate WaitersBlocked(live: set<Pid>, blocked: map<Pid, OpenFile>, f: string, q: seq<Lock>) {
    WaitersKnown(live, blocked, f, q) && WaitOnce(q)
  }

  ghost predicate FileOk(s: Kernel, f: string) {
    && QueueOk(Queue(s, f))
    && HeadIsGranted(s.held, f, Queue(s, f))
    && WaitersBlocked(s.held.Keys, s.blocked, f, Queue(s, f))
  }

  predicate Waits(q: seq<Lock>, p: Pid) {
    exists i :: 0 <= i < |q| && p in q[i].waiting
  }

  /** Whoever is blocked is live and waits in a lock of that file. */
  ghost predicate BlockedWait(s: Kernel) {
    forall p :: p in s.blocked ==> p in s.held && Waits(Queue(s, s.blocked[p].file), p)
  }

  ghost predicate Inv(s: Kernel) {
    (forall f :: FileOk(s, f)) && BlockedWait(s)
  }

  // ----- opening

  /** The reader is in the lock at index k, which is the first read lock or a new one at the end. */
  predicate PlacedAt(q: seq<Lock>, r: seq<Lock>, pid: Pid, blocked: bool, k: nat) {
    && k <= |q| && |r| == (if k < |q| then |q| else |q| + 1)
    && (forall i :: 0 <= i < |q| && i != k ==> r[i] == q[i])
    && (forall i :: 0 <= i < k ==> q[i].isWrite)
    && r[k] == (if k < |q| then Joined(q[k], pid, blocked) else NewLock(pid, false, blocked))
    && (k < |q| ==> !q[k].isWrite)
  }

  lemma PlacedBehind(l: Lock, q: seq<Lock>, r: seq<Lock>, pid: Pid, blocked: bool, k: nat)
    requires PlacedAt(q, r, pid, blocked, k) && l.isWrite
    ensures PlacedAt([l] + q, [l] + r, pid, blocked, k + 1)
  {
  }

  lemma {:induction false} ReadPlacement(q: seq<Lock>, pid: Pid, blocked: bool) returns (k: nat)
    ensures PlacedAt(q, AddReadLock(q, pid, blocked), pid, blocked, k)
  {
    if q == [] || !q[0].isWrite {
      k := 0;
    } else {
      var j := ReadPlacement(q[1..], pid, blocked);
      k := j + 1;
      PlacedBehind(q[0], q[1..], AddReadLock(q[1..], pid, blocked), pid, blocked, j);
      assert [q[0]] + q[1..] == q;
    }
  }

  /** An opening joins exactly one lock of the right kind: the head if it need not wait, one behind it otherwise. */
  lemma Placement(q: seq<Lock>, pid: Pid, isWrite: bool) returns (k: nat)
    ensures var r, b := Enqueue(q, pid, isWrite), MustWait(q, isWrite);
      && k <= |q| && |r| == (if k < |q| then |q| else |q| + 1) && (k == 0 <==> !b)
      && (forall i :: 0 <= i < |q| && i != k ==> r[i] == q[i])
      && r[k] == (if k < |q| then Joined(q[k], pid, b) else NewLock(pid, isWrite, b))
      && r[k].isWrite == isWrite
      && (k < |q| || isWrite || forall i :: 0 <= i < |q| ==> q[i].isWrite)
  {
    if isWrite {
      k := |q|;
    } else {
      k := ReadPlacement(q, pid, MustWait(q, false));
    }
  }

  /** Lock by lock: the process goes last in the first read lock of the queue, or alone in a new lock behind them all,
      and that lock is marked as blocked exactly if the process has to wait. */
  lemma OpeningJoins(q: seq<Lock>, pid: Pid, isWrite: bool) returns (k: nat)
    ensures var r, waits := Enqueue(q, pid, isWrite), MustWait(q, isWrite);
      && k < |r| && (if k < |q| then |r| == |q| && !isWrite else |r| == |q| + 1)
      && (forall i :: 0 <= i < |q| && i != k ==> r[i] == q[i])
      && (!isWrite ==> forall i :: 0 <= i < k ==> r[i].isWrite)
      && r[k].isWrite == isWrite && r[k].isBlocked == waits
      && r[k].participants == (if k < |q| then q[k].participants else []) + [pid]
      && r[k].waiting == (if k < |q| then q[k].waiting else {}) + (if waits then {pid} else {})
      && r[k].posts == if k < |q| then q[k].posts else 0
  {
    if isWrite {
      k := |q|;
    } else {
      k := ReadPlacement(q, pid, MustWait(q, false));
    }
  }

  lemma JoinedBehind(l: Lock, pid: Pid)
    requires Behind(l) && pid !in l.waiting
    ensures Behind(Joined(l, pid, true))
  {
  }

  lemma EnqueueOk(q: seq<Lock>, pid: Pid, isWrite: bool)
    requires QueueOk(q) && forall i :: 0 <= i < |q| ==> pid !in q[i].waiting
    ensures QueueOk(Enqueue(q, pid, isWrite))
  {
    var k := Placement(q, pid, isWrite);
    if 0 < k < |q| {
      JoinedBehind(q[k], pid);
    }
  }

  lemma CountPut(held: Held, pid: Pid, e: OpenFile, p: Pid, g: OpenFile)
    requires pid in held
    ensures Count(held[pid := held[pid] + [e]], p, g) == Count(held, p, g) + One(p == pid && g == e)
  {
  }

  lemma EnqueueGranted(held: Held, f: string, q: seq<Lock>, pid: Pid, isWrite: bool)
    requires HeadIsGranted(held, f, q) && pid in held && !MustWait(q, isWrite)
    ensures HeadIsGranted(held[pid := held[pid] + [OpenFile(f, isWrite)]], f, Enqueue(q, pid, isWrite))
  {
    var k := Placement(q, pid, isWrite);
    var e, r := OpenFile(f, isWrite), Enqueue(q, pid, isWrite);
    var after := held[pid := held[pid] + [e]];
    forall p ensures Matches(after, f, r, p) {
      assert Matches(held, f, q, p);
      CountPut(held, pid, e, p, OpenFile(f, false));
      CountPut(held, pid, e, p, OpenFile(f, true));
    }
  }

  lemma EnqueueBehind(held: Held, f: string, q: seq<Lock>, pid: Pid, isWrite: bool)
    requires HeadIsGranted(held, f, q) && MustWait(q, isWrite)
    ensures HeadIsGranted(held, f, Enqueue(q, pid, isWrite))
  {
    var k := Placement(q, pid, isWrite);
    forall p ensures Matches(held, f, Enqueue(q, pid, isWrite), p) {
      assert Matches(held, f, q, p);
    }
  }

  lemma EnqueueWaiters(live: set<Pid>, blocked: map<Pid, OpenFile>, f: string, q: seq<Lock>, pid: Pid, isWrite: bool)
    requires WaitersBlocked(live, blocked, f, q) && pid in live && pid !in blocked
    ensures WaitersBlocked(live, if MustWait(q, isWrite) then blocked[pid := OpenFile(f, isWrite)] else blocked, f,
                           Enqueue(q, pid, isWrite))
  {
    var k := Placement(q, pid, isWrite);
    var r := Enqueue(q, pid, isWrite);
    assert forall i :: 0 <= i < |q| ==> pid !in q[i].waiting;
    assert forall i, p ::
      0 <= i < |r| && p in r[i].waiting && p != pid ==> i < |q| && p in q[i].waiting && r[i].isWrite == q[i].isWrite;
    assert forall i :: 0 <= i < |r| && pid in r[i].waiting ==> i == k && MustWait(q, isWrite);
  }

  // ----- closing

  lemma {:induction false} CountRemoveFirst<T>(s: seq<T>, x: T)
    requires x in s
    ensures multiset(RemoveFirst(s, x)) == multiset(s) - multiset{x} && |RemoveFirst(s, x)| == |s| - 1
  {
    assert s == [s[0]] + s[1..];
    if s[0] != x {
      CountRemoveFirst(s[1..], x);
    }
  }

  lemma {:induction false} CountDistinct<T>(s: seq<T>, x: T)
    requires NoDuplicates(s) && x in s
    ensures multiset(s)[x] == 1
  {
    assert s == [s[0]] + s[1..];
    if s[0] == x {
      assert x !in s[1..];
    } else {
      CountDistinct(s[1..], x);
    }
  }

  /** The lock that leaves is out, or one participant is. */
  predicate Emptied(q: seq<Lock>, pid: Pid)
    requires q != []
  {
    q[0].isWrite || RemoveFirst(q[0].participants, pid) == []
  }

  lemma ReleasedAtHead(l: Lock)
    requires Behind(l)
    ensures AtHead(l.(posts := l.posts + |l.participants|))
  {
    forall p | p in l.waiting ensures multiset(l.participants)[p] == 1 {
      CountDistinct(l.participants, p);
    }
  }

  lemma HandOverOk(q: seq<Lock>)
    requires QueueOk(q) && q != []
    ensures QueueOk(HandOver(q[1..]))
  {
    if |q| > 1 {
      assert Behind(q[1]);
      ReleasedAtHead(q[1]);
      var r := HandOver(q[1..]);
      assert forall i :: 0 < i < |r| ==> r[i] == q[i + 1];
    }
  }

  lemma NobodyElseWaits(l: Lock, pid: Pid)
    requires AtHead(l) && l.participants == [pid] && pid !in l.waiting
    ensures l.waiting == {}
  {
    assert forall p :: p != pid ==> multiset(l.participants)[p] == 0;
  }

  lemma EmptiedMeansAlone(q: seq<Lock>, pid: Pid)
    requires QueueOk(q) && q != [] && pid in q[0].participants
    ensures Emptied(q, pid) <==> q[0].participants == [pid]
  {
    CountRemoveFirst(q[0].participants, pid);
  }

  lemma RemainingOk(q: seq<Lock>, pid: Pid)
    requires QueueOk(q) && q != [] && pid in q[0].participants && pid !in q[0].waiting && !Emptied(q, pid)
    ensures QueueOk(CloseLock(q, pid, 0))
  {
    CountRemoveFirst(q[0].participants, pid);
  }

  lemma CloseOk(q: seq<Lock>, pid: Pid)
    requires QueueOk(q) && q != [] && pid in q[0].participants && pid !in q[0].waiting
    ensures QueueOk(CloseLock(q, pid, 0))
    ensures Emptied(q, pid) ==> q[0].waiting == {}
  {
    if Emptied(q, pid) {
      HandOverOk(q);
      EmptiedMeansAlone(q, pid);
      NobodyElseWaits(q[0], pid);
    } else {
      RemainingOk(q, pid);
    }
  }

  lemma CountDrop(held: Held, pid: Pid, e: OpenFile, p: Pid, g: OpenFile)
    requires pid in held && e in held[pid]
    ensures Count(held[pid := RemoveFirst(held[pid], e)], p, g) == Count(held, p, g) - One(p == pid && g == e)
  {
    CountRemoveFirst(held[pid], e);
  }

  /** A free process with the file open takes part in the lock at the head, which is of the kind it asked for. */
  lemma HolderIsAtHead(held: Held, f: string, q: seq<Lock>, pid: Pid, e: OpenFile)
    requires HeadIsGranted(held, f, q) && pid in held && e in held[pid] && e.file == f
    ensures q != [] && pid in q[0].participants && e == OpenFile(f, q[0].isWrite)
  {
    assert Matches(held, f, q, pid);
    assert Count(held, pid, e) > 0;
    assert e == OpenFile(f, true) || e == OpenFile(f, false);
  }

  lemma CloseGranted(held: Held, f: string, q: seq<Lock>, pid: Pid, e: OpenFile)
    requires QueueOk(q) && HeadIsGranted(held, f, q) && q != [] && pid in held && e in held[pid] &&
      e == OpenFile(f, q[0].isWrite)
    requires pid in q[0].participants && forall i :: 0 <= i < |q| ==> pid !in q[i].waiting
    ensures HeadIsGranted(held[pid := RemoveFirst(held[pid], e)], f, CloseLock(q, pid, 0))
  {
    var after, r := held[pid := RemoveFirst(held[pid], e)], CloseLock(q, pid, 0);
    CloseOk(q, pid);
    CountRemoveFirst(q[0].participants, pid);
    forall p ensures Matches(after, f, r, p) {
      assert Matches(held, f, q, p);
      CountDrop(held, pid, e, p, OpenFile(f, false));
      CountDrop(held, pid, e, p, OpenFile(f, true));
      if Emptied(q, pid) && |q| > 1 {
        HeadOfNext(q[1], p);
      }
    }
  }

  lemma HeadOfNext(l: Lock, p: Pid)
    requires Behind(l)
    ensures multiset(l.participants)[p] == One(p in l.waiting)
  {
    if p in l.participants {
      CountDistinct(l.participants, p);
    }
  }

  /** The same waiters, d locks nearer to the head. */
  lemma WaitersShift(live: set<Pid>, blocked: map<Pid, OpenFile>, f: string, q: seq<Lock>, r: seq<Lock>, d: nat)
    requires WaitersBlocked(live, blocked, f, q) && |q| == |r| + d && (d == 0 || (d == 1 && q[0].waiting == {}))
    requires forall i :: 0 <= i < |r| ==> r[i].waiting == q[i + d].waiting && r[i].isWrite == q[i + d].isWrite
    ensures WaitersBlocked(live, blocked, f, r)
    ensures forall p :: Waits(r, p) <==> Waits(q, p)
  {
    forall i, p | 0 <= i < |r| && p in r[i].waiting
      ensures p in live && p in blocked && blocked[p] == OpenFile(f, r[i].isWrite)
    {
      assert p in q[i + d].waiting;
    }
    forall i, j, p | 0 <= i < |r| && 0 <= j < |r| && p in r[i].waiting && p in r[j].waiting ensures i == j {
      assert p in q[i + d].waiting && p in q[j + d].waiting;
    }
    forall p ensures Waits(r, p) <==> Waits(q, p) {
      if i :| 0 <= i < |q| && p in q[i].waiting {
        assert p in r[i - d].waiting;
      }
    }
  }

  lemma CloseWaiters(live: set<Pid>, blocked: map<Pid, OpenFile>, f: string, q: seq<Lock>, pid: Pid)
    requires QueueOk(q) && q != [] && pid in q[0].participants && pid !in q[0].waiting
    requires WaitersBlocked(live, blocked, f, q)
    ensures WaitersBlocked(live, blocked, f, CloseLock(q, pid, 0))
    ensures forall p :: Waits(CloseLock(q, pid, 0), p) <==> Waits(q, p)
  {
    CloseOk(q, pid);
    WaitersShift(live, blocked, f, q, CloseLock(q, pid, 0), if Emptied(q, pid) then 1 else 0);
  }

  // ----- one step

  lemma NoWait(s: Kernel, pid: Pid, f: string)
    requires Inv(s) && pid !in s.blocked
    ensures forall i :: 0 <= i < |Queue(s, f)| ==> pid !in Queue(s, f)[i].waiting
  {
    assert FileOk(s, f);
  }

  lemma GrantedElsewhere(held: Held, after: Held, f: string, q: seq<Lock>)
    requires HeadIsGranted(held, f, q)
    requires forall p, w :: Count(after, p, OpenFile(f, w)) == Count(held, p, OpenFile(f, w))
    ensures HeadIsGranted(after, f, q)
  {
    forall p ensures Matches(after, f, q, p) {
      assert Matches(held, f, q, p);
    }
  }

  lemma WaitersElsewhere(live: set<Pid>, blocked: map<Pid, OpenFile>, after: map<Pid, OpenFile>, f: string,
                         q: seq<Lock>)
    requires WaitersBlocked(live, blocked, f, q)
    requires forall i, p :: 0 <= i < |q| && p in q[i].waiting ==> p in after && after[p] == blocked[p]
    ensures WaitersBlocked(live, after, f, q)
  {
  }

  lemma FileElsewhere(s: Kernel, t: Kernel, g: string)
    requires FileOk(s, g) && Queue(t, g) == Queue(s, g) && t.held.Keys == s.held.Keys
    requires forall p, w :: Count(t.held, p, OpenFile(g, w)) == Count(s.held, p, OpenFile(g, w))
    requires forall i, p ::
      0 <= i < |Queue(s, g)| && p in Queue(s, g)[i].waiting ==> p in t.blocked && t.blocked[p] == s.blocked[p]
    ensures FileOk(t, g)
  {
    GrantedElsewhere(s.held, t.held, g, Queue(s, g));
    WaitersElsewhere(s.held.Keys, s.blocked, t.blocked, g, Queue(s, g));
  }

  lemma OpenElsewhere(s: Kernel, pid: Pid, e: OpenFile, g: string)
    requires FileOk(s, g) && Free(s, pid) && g != e.file
    ensures FileOk(Open(s, pid, e), g)
  {
    var t := Open(s, pid, e);
    forall p, w ensures Count(t.held, p, OpenFile(g, w)) == Count(s.held, p, OpenFile(g, w)) {
      CountPut(s.held, pid, e, p, OpenFile(g, w));
    }
    FileElsewhere(s, t, g);
  }

  lemma OpenHere(s: Kernel, pid: Pid, e: OpenFile)
    requires Inv(s) && Free(s, pid)
    ensures FileOk(Open(s, pid, e), e.file)
  {
    var q := Queue(s, e.file);
    assert FileOk(s, e.file);
    NoWait(s, pid, e.file);
    EnqueueOk(q, pid, e.isWrite);
    EnqueueWaiters(s.held.Keys, s.blocked, e.file, q, pid, e.isWrite);
    if MustWait(q, e.isWrite) {
      EnqueueBehind(s.held, e.file, q, pid, e.isWrite);
    } else {
      EnqueueGranted(s.held, e.file, q, pid, e.isWrite);
      assert s.held[pid := s.held[pid] + [e]].Keys == s.held.Keys;
    }
  }

  lemma EnqueueWaits(q: seq<Lock>, pid: Pid, isWrite: bool)
    ensures forall p :: Waits(q, p) ==> Waits(Enqueue(q, pid, isWrite), p)
    ensures MustWait(q, isWrite) ==> Waits(Enqueue(q, pid, isWrite), pid)
  {
    var k := Placement(q, pid, isWrite);
    var r := Enqueue(q, pid, isWrite);
    forall p | Waits(q, p) ensures Waits(r, p) {
      var i :| 0 <= i < |q| && p in q[i].waiting;
      assert p in r[i].waiting;
    }
    if MustWait(q, isWrite) {
      assert pid in r[k].waiting;
    }
  }

  lemma OpenKeeps(s: Kernel, pid: Pid, e: OpenFile)
    requires Inv(s) && Free(s, pid)
    ensures Inv(Open(s, pid, e))
  {
    OpenHere(s, pid, e);
    forall g | g != e.file ensures FileOk(Open(s, pid, e), g) {
      OpenElsewhere(s, pid, e, g);
    }
    EnqueueWaits(Queue(s, e.file), pid, e.isWrite);
  }

  lemma CloseElsewhere(s: Kernel, pid: Pid, e: OpenFile, g: string)
    requires FileOk(s, g) && Free(s, pid) && g != e.file && e in s.held[pid] && Queue(s, e.file) != []
    ensures FileOk(CloseAt(s, pid, e, 0), g)
  {
    var t := CloseAt(s, pid, e, 0);
    forall p, w ensures Count(t.held, p, OpenFile(g, w)) == Count(s.held, p, OpenFile(g, w)) {
      CountDrop(s.held, pid, e, p, OpenFile(g, w));
    }
    assert t.held.Keys == s.held.Keys;
    FileElsewhere(s, t, g);
  }

  /** The lock at index 0 is the closing process's own, of the kind it asked for. */
  lemma CloserIsAtHead(s: Kernel, pid: Pid, e: OpenFile)
    requires Inv(s) && Free(s, pid) && e in s.held[pid]
    ensures var q := Queue(s, e.file);
      q != [] && pid in q[0].participants && pid !in q[0].waiting && e.isWrite == q[0].isWrite &&
        LockOf(q, pid) == Some(0)
  {
    assert FileOk(s, e.file);
    HolderIsAtHead(s.held, e.file, Queue(s, e.file), pid, e);
  }

  lemma CloseHere(s: Kernel, pid: Pid, e: OpenFile)
    requires Inv(s) && Free(s, pid) && e in s.held[pid] && Queue(s, e.file) != []
    ensures FileOk(CloseAt(s, pid, e, 0), e.file)
  {
    var q := Queue(s, e.file);
    assert FileOk(s, e.file);
    CloserIsAtHead(s, pid, e);
    NoWait(s, pid, e.file);
    CloseOk(q, pid);
    CloseGranted(s.held, e.file, q, pid, e);
    CloseWaiters(s.held.Keys, s.blocked, e.file, q, pid);
    assert s.held[pid := RemoveFirst(s.held[pid], e)].Keys == s.held.Keys;
  }

  lemma CloseKeeps(s: Kernel, pid: Pid, e: OpenFile)
    requires Inv(s) && Free(s, pid) && e in s.held[pid]
    ensures Queue(s, e.file) != [] && Inv(CloseAt(s, pid, e, 0))
  {
    CloserIsAtHead(s, pid, e);
    CloseHere(s, pid, e);
    forall g | g != e.file ensures FileOk(CloseAt(s, pid, e, 0), g) {
      CloseElsewhere(s, pid, e, g);
    }
    assert FileOk(s, e.file);
    CloseWaiters(s.held.Keys, s.blocked, e.file, Queue(s, e.file), pid);
  }

  // ----- waking

  lemma AwakeOk(q: seq<Lock>, pid: Pid, i: nat)
    requires QueueOk(q) && i < |q| && pid in q[i].waiting && q[i].posts > 0
    ensures i == 0 && QueueOk(q[0 := Awake(q[0], pid)])
  {
  }

  lemma AwakeGranted(held: Held, f: string, q: seq<Lock>, pid: Pid)
    requires HeadIsGranted(held, f, q) && pid in held && q != [] && pid in q[0].waiting && q[0].posts > 0
    ensures HeadIsGranted(held[pid := held[pid] + [OpenFile(f, q[0].isWrite)]], f, q[0 := Awake(q[0], pid)])
  {
    var e := OpenFile(f, q[0].isWrite);
    var after := held[pid := held[pid] + [e]];
    var r := q[0 := Awake(q[0], pid)];
    forall p ensures Matches(after, f, r, p) {
      assert Matches(held, f, q, p);
      CountPut(held, pid, e, p, OpenFile(f, false));
      CountPut(held, pid, e, p, OpenFile(f, true));
    }
  }

  lemma AwakeWaiters(live: set<Pid>, blocked: map<Pid, OpenFile>, f: string, q: seq<Lock>, pid: Pid)
    requires WaitersBlocked(live, blocked, f, q) && q != [] && pid in q[0].waiting && q[0].posts > 0
    ensures WaitersBlocked(live, blocked - {pid}, f, q[0 := Awake(q[0], pid)])
  {
    var r := q[0 := Awake(q[0], pid)];
    forall i, p | 0 <= i < |r| && p in r[i].waiting
      ensures p in q[i].waiting && r[i].isWrite == q[i].isWrite && p != pid
    {
      assert pid in q[0].waiting;
    }
  }

  lemma WakeHere(s: Kernel, pid: Pid, i: nat, e: OpenFile)
    requires Inv(s) && pid in s.held && pid in s.blocked && s.blocked[pid] == e
    requires i < |Queue(s, e.file)| && pid in Queue(s, e.file)[i].waiting && Queue(s, e.file)[i].posts > 0
    ensures i == 0 && FileOk(Wake(s, pid, i), e.file)
  {
    var q := Queue(s, e.file);
    assert FileOk(s, e.file);
    AwakeOk(q, pid, i);
    AwakeGranted(s.held, e.file, q, pid);
    AwakeWaiters(s.held.Keys, s.blocked, e.file, q, pid);
    assert s.held[pid := s.held[pid] + [e]].Keys == s.held.Keys;
  }

  lemma WakeElsewhere(s: Kernel, pid: Pid, i: nat, e: OpenFile, g: string)
    requires FileOk(s, g) && pid in s.held && pid in s.blocked && s.blocked[pid] == e && g != e.file
    requires i < |Queue(s, e.file)| && Queue(s, e.file)[i].posts > 0
    ensures FileOk(Wake(s, pid, i), g)
  {
    var t := Wake(s, pid, i);
    forall p, w ensures Count(t.held, p, OpenFile(g, w)) == Count(s.held, p, OpenFile(g, w)) {
      CountPut(s.held, pid, e, p, OpenFile(g, w));
    }
    assert t.held.Keys == s.held.Keys;
    assert forall k :: 0 <= k < |Queue(s, g)| ==> pid !in Queue(s, g)[k].waiting;
    FileElsewhere(s, t, g);
  }

  lemma WakeKeeps(s: Kernel, pid: Pid, i: nat)
    requires Inv(s) && pid in s.held && pid in s.blocked && i < |Queue(s, s.blocked[pid].file)|
    requires pid in Queue(s, s.blocked[pid].file)[i].waiting && Queue(s, s.blocked[pid].file)[i].posts > 0
    ensures i == 0 && Inv(Wake(s, pid, i))
  {
    var t, e := Wake(s, pid, i), s.blocked[pid];
    WakeHere(s, pid, i, e);
    forall g | g != e.file ensures FileOk(t, g) {
      WakeElsewhere(s, pid, i, e, g);
    }
    forall p | p in t.blocked ensures p in t.held && Waits(Queue(t, t.blocked[p].file), p) {
      var k :| 0 <= k < |Queue(s, s.blocked[p].file)| && p in Queue(s, s.blocked[p].file)[k].waiting;
      assert p in Queue(t, t.blocked[p].file)[k].waiting;
    }
  }

  // ----- starting and ending

  lemma LiveChanges(s: Kernel, t: Kernel)
    requires Inv(s) && t.files == s.files && t.blocked == s.blocked
    requires forall p, e :: Count(t.held, p, e) == Count(s.held, p, e)
    requires forall p :: p in s.blocked ==> p in t.held
    ensures Inv(t)
  {
    forall f ensures FileOk(t, f) {
      assert FileOk(s, f);
      GrantedElsewhere(s.held, t.held, f, Queue(s, f));
      assert WaitersKnown(t.held.Keys, t.blocked, f, Queue(t, f));
    }
  }

  /** Elimination never looks for a lock in vain, every lock it closes is the head of its queue, and afterwards the
      process takes part in no lock. */
  lemma {:induction false} EliminateKeeps(s: Kernel, pid: Pid)
    requires Inv(s) && Free(s, pid)
    ensures var r := Eliminate(s, pid);
      r.Some? && Inv(r.value) && r.value.held.Keys == s.held.Keys - {pid} && r.value.blocked == s.blocked
    decreases |s.held[pid]|
  {
    if s.held[pid] == [] {
      LiveChanges(s, s.(held := s.held - {pid}));
    } else {
      var e := s.held[pid][0];
      CloserIsAtHead(s, pid, e);
      CloseKeeps(s, pid, e);
      EliminateKeeps(CloseAt(s, pid, e, 0), pid);
    }
  }

  lemma NextKeeps(s: Kernel, ev: Event, t: Kernel)
    requires Inv(s) && Next(s, ev, t)
    ensures Inv(t)
  {
    match ev
    case Started(pid) => LiveChanges(s, t);
    case Opened(pid, e) => OpenKeeps(s, pid, e);
    case Woken(pid, i) => WakeKeeps(s, pid, i);
    case Closed(pid, f) => CloseKeeps(s, pid, FirstOf(s.held[pid], f).value);
    case Ended(pid) => EliminateKeeps(s, pid);
  }

  lemma InitialOk()
    ensures Inv(Kernel(map[], map[], map[]))
  {
    var s := Kernel(map[], map[], map[]);
    forall f ensures FileOk(s, f) {
      assert forall p :: Matches(s.held, f, Queue(s, f), p);
    }
  }

  /** Main invariant, over every run: at most one read lock per queue, one participant per write lock, exactly the
      granted openings and the released waiters at the head, and everybody behind the head waiting without a post. */
  lemma {:induction false} LocksStaySafe(events: seq<Event>, states: seq<Kernel>, i: nat)
    requires IsRun(events, states) && i <= |events|
    ensures Inv(states[i])
  {
    if i == 0 {
      InitialOk();
    } else {
      LocksStaySafe(events, states, i - 1);
      NextKeeps(states[i - 1], events[i - 1], states[i]);
    }
  }

  // ----- what the invariant promises

  /** The opening is granted: the process has it and does not wait for it. */
  predicate Granted(s: Kernel, pid: Pid, e: OpenFile) {
    pid in s.held && e in s.held[pid]
  }

  /** It is the only granted opening of its file. */
  ghost predicate SoleHolder(s: Kernel, pid: Pid, f: string) {
    && pid in s.held && multiset(s.held[pid])[OpenFile(f, true)] == 1
    && (forall p, w :: Granted(s, p, OpenFile(f, w)) ==> p == pid && w)
  }

  /** Mutual exclusion, in every state of every run: whoever has a file open for writing is its only holder. */
  lemma WritersExclude(events: seq<Event>, states: seq<Kernel>, i: nat, pid: Pid, f: string)
    requires IsRun(events, states) && i <= |events| && Granted(states[i], pid, OpenFile(f, true))
    ensures SoleHolder(states[i], pid, f)
  {
    LocksStaySafe(events, states, i);
    WriterIsAlone(states[i], pid, f);
  }

  lemma WriterIsAlone(s: Kernel, pid: Pid, f: string)
    requires Inv(s) && Granted(s, pid, OpenFile(f, true))
    ensures SoleHolder(s, pid, f) && Queue(s, f) != [] && Queue(s, f)[0].isWrite
  {
    var q := Queue(s, f);
    assert FileOk(s, f);
    HolderIsAtHead(s.held, f, q, pid, OpenFile(f, true));
    assert q[0].participants == [pid];
    forall p, w | Granted(s, p, OpenFile(f, w)) ensures p == pid && w {
      HolderIsAtHead(s.held, f, q, p, OpenFile(f, w));
    }
    assert Matches(s.held, f, q, pid);
  }

  /** What F_WRITE looks at: the kind of the lock at the head, whoever takes part in it. */
  predicate WriteForwarded(s: Kernel, f: string) {
    Queue(s, f) != [] && Queue(s, f)[0].isWrite
  }

  /** For a process that has the file open, F_WRITE goes through exactly when it opened it for writing, and then it is
      the only holder. */
  lemma WriteByHolder(events: seq<Event>, states: seq<Kernel>, i: nat, pid: Pid, f: string)
    requires IsRun(events, states) && i <= |events| && Free(states[i], pid) && FirstOf(states[i].held[pid], f).Some?
    ensures WriteForwarded(states[i], f) <==> Granted(states[i], pid, OpenFile(f, true))
    ensures WriteForwarded(states[i], f) ==> SoleHolder(states[i], pid, f)
  {
    var s, e := states[i], FirstOf(states[i].held[pid], f).value;
    LocksStaySafe(events, states, i);
    CloserIsAtHead(s, pid, e);
    if Granted(s, pid, OpenFile(f, true)) {
      WriterIsAlone(s, pid, f);
    }
  }

  /** So a forwarded F_WRITE comes from the sole holder exactly when the process has the file open at all... */
  lemma ForwardedBySoleHolderIff(events: seq<Event>, states: seq<Kernel>, i: nat, pid: Pid, f: string)
    requires IsRun(events, states) && i <= |events| && Free(states[i], pid) && WriteForwarded(states[i], f)
    ensures SoleHolder(states[i], pid, f) <==> FirstOf(states[i].held[pid], f).Some?
  {
    if FirstOf(states[i].held[pid], f).Some? {
      WriteByHolder(events, states, i, pid, f);
    } else {
      assert multiset(states[i].held[pid])[OpenFile(f, true)] == 0;
    }
  }

  /** ...and the kernel does forward it for a process that never opened the file. */
  lemma StrangerMayWrite() returns (events: seq<Event>, states: seq<Kernel>)
    ensures IsRun(events, states) && |events| == 3
    ensures Free(states[3], 2) && FirstOf(states[3].held[2], "f").None? && WriteForwarded(states[3], "f")
  {
    var s0 := Kernel(map[], map[], map[]);
    var s1 := s0.(held := s0.held[1 := []]);
    var s2 := s1.(held := s1.held[2 := []]);
    var s3 := Open(s2, 1, OpenFile("f", true));
    events, states := [Started(1), Started(2), Opened(1, OpenFile("f", true))], [s0, s1, s2, s3];
    assert Queue(s3, "f") == [NewLock(1, true, false)];
  }

  /** The processes whose threads can leave their lock at once. */
  function Released(q: seq<Lock>): set<Pid> {
    if q != [] && q[0].posts > 0 then q[0].waiting else {}
  }

  /** The queue after a close at its head: either the next lock is at the head with one post for each of its waiters,
      or the head is the same lock with one participant less. */
  predicate HandsOverExactly(q: seq<Lock>, r: seq<Lock>)
    requires q != []
  {
    if q[0].isWrite || |q[0].participants| == 1 then
      && q[0].waiting == {} && |r| == |q| - 1
      && (r != [] ==> Released(r) == q[1].waiting && r[0].posts == |q[1].waiting|)
      && (r != [] ==> r[0].participants == q[1].participants && r[1..] == q[2..])
    else
      r != [] && Released(r) == Released(q) && r[0].posts == q[0].posts &&
        |r[0].participants| == |q[0].participants| - 1 &&
      r[1..] == q[1..]
  }

  lemma CloseLockReleases(q: seq<Lock>, pid: Pid)
    requires QueueOk(q) && q != [] && pid in q[0].participants && pid !in q[0].waiting
    ensures HandsOverExactly(q, CloseLock(q, pid, 0))
  {
    CountRemoveFirst(q[0].participants, pid);
    EmptiedMeansAlone(q, pid);
    if Emptied(q, pid) {
      NobodyElseWaits(q[0], pid);
      if |q| > 1 {
        assert Behind(q[1]);
        NextIsReleased(q);
      }
    }
  }

  lemma NextIsReleased(q: seq<Lock>)
    requires |q| > 1 && Behind(q[1]) && q[1].participants != []
    ensures var r := HandOver(q[1..]);
      && |r| == |q| - 1 && Released(r) == q[1].waiting && r[0].posts == |q[1].waiting|
      && r[0].participants == q[1].participants && r[1..] == q[2..]
  {
  }

  /** Hand-over is exact: a close releases nobody while other participants remain; when its lock leaves the queue it
      releases precisely the waiters of the next lock, with one post each. */
  lemma CloseReleasesExactly(events: seq<Event>, states: seq<Kernel>, i: nat, pid: Pid, e: OpenFile)
    requires IsRun(events, states) && i <= |events| && Free(states[i], pid) && e in states[i].held[pid]
    ensures Queue(states[i], e.file) != []
    ensures HandsOverExactly(Queue(states[i], e.file), Queue(CloseAt(states[i], pid, e, 0), e.file))
  {
    LocksStaySafe(events, states, i);
    assert FileOk(states[i], e.file);
    CloserIsAtHead(states[i], pid, e);
    CloseLockReleases(Queue(states[i], e.file), pid);
  }

  // ----- who has to wait

  /** Somebody has the file open in that kind, or has been released to have it. */
  ghost predicate InForce(s: Kernel, f: string, isWrite: bool) {
    exists p :: Granted(s, p, OpenFile(f, isWrite)) ||
                (p in s.blocked && s.blocked[p] == OpenFile(f, isWrite) && p in Released(Queue(s, f)))
  }

  lemma HeadInForce(s: Kernel, f: string)
    requires Inv(s) && Queue(s, f) != []
    ensures InForce(s, f, Queue(s, f)[0].isWrite) && !InForce(s, f, !Queue(s, f)[0].isWrite)
  {
    var q := Queue(s, f);
    assert FileOk(s, f);
    var p := q[0].participants[0];
    assert Matches(s.held, f, q, p);
    assert multiset(q[0].participants)[p] > 0;
    if p in q[0].waiting {
      WaiterIsReleased(q[0], p);
    } else {
      CountedIsGranted(s, p, OpenFile(f, q[0].isWrite));
    }
    var other := OpenFile(f, !q[0].isWrite);
    forall x ensures !Granted(s, x, other) {
      assert Matches(s.held, f, q, x);
    }
    assert forall x :: x in q[0].waiting ==> s.blocked[x] == OpenFile(f, q[0].isWrite);
  }

  lemma WaiterIsReleased(l: Lock, p: Pid)
    requires AtHead(l) && p in l.waiting
    ensures l.posts > 0
  {
  }

  lemma CountedIsGranted(s: Kernel, p: Pid, e: OpenFile)
    requires Count(s.held, p, e) > 0
    ensures Granted(s, p, e)
  {
  }

  lemma NobodyInForce(s: Kernel, f: string)
    requires Inv(s) && Queue(s, f) == []
    ensures !InForce(s, f, false) && !InForce(s, f, true)
  {
    assert FileOk(s, f);
    var reading, writing := OpenFile(f, false), OpenFile(f, true);
    forall p ensures !Granted(s, p, reading) && !Granted(s, p, writing) {
      assert Matches(s.held, f, Queue(s, f), p);
    }
  }

  /** An opening for writing waits exactly if somebody has the file; one for reading, exactly if somebody has it for
      writing. */
  lemma OpeningWaitsIff(events: seq<Event>, states: seq<Kernel>, i: nat, f: string, isWrite: bool)
    requires IsRun(events, states) && i <= |events|
    ensures MustWait(Queue(states[i], f), isWrite) <==>
            InForce(states[i], f, true) || (isWrite && InForce(states[i], f, false))
  {
    LocksStaySafe(events, states, i);
    if Queue(states[i], f) == [] {
      NobodyInForce(states[i], f);
    } else {
      HeadInForce(states[i], f);
    }
  }

  /** What an opening does: it is granted or it waits behind the head, and nobody else's opening changes. */
  lemma OpenOutcome(s: Kernel, pid: Pid, e: OpenFile)
    requires Inv(s) && Free(s, pid)
    ensures var t, waits := Open(s, pid, e), MustWait(Queue(s, e.file), e.isWrite);
      && (forall p, g :: Count(t.held, p, g) == Count(s.held, p, g) + One(p == pid && g == e && !waits))
      && t.blocked == (if waits then s.blocked[pid := e] else s.blocked)
      && (waits <==> exists i :: 0 < i < |Queue(t, e.file)| && pid in Queue(t, e.file)[i].waiting)
      && (forall g :: g != e.file ==> Queue(t, g) == Queue(s, g))
  {
    var t, waits := Open(s, pid, e), MustWait(Queue(s, e.file), e.isWrite);
    forall p, g ensures Count(t.held, p, g) == Count(s.held, p, g) + One(p == pid && g == e && !waits) {
      CountPut(s.held, pid, e, p, g);
    }
    NoWait(s, pid, e.file);
    var k := Placement(Queue(s, e.file), pid, e.isWrite);
    if waits {
      assert pid in Queue(t, e.file)[k].waiting;
    }
  }

  // ----- waiting for oneself

  ghost predicate WaitsForItself(s: Kernel, pid: Pid, f: string) {
    && pid in s.held && pid in s.blocked && s.blocked[pid].file == f
    && exists w :: Granted(s, pid, OpenFile(f, w))
  }

  lemma SelfWaiterIsBehind(s: Kernel, pid: Pid, f: string)
    requires Inv(s) && WaitsForItself(s, pid, f)
    ensures Queue(s, f) != [] && pid !in Queue(s, f)[0].waiting
  {
    var w :| Granted(s, pid, OpenFile(f, w));
    var q := Queue(s, f);
    assert FileOk(s, f) && Matches(s.held, f, q, pid);
    HolderIsAtHead(s.held, f, q, pid, OpenFile(f, w));
  }

  /** A process that has a file open and opens it again waits exactly if one of the two openings is for writing... */
  lemma SecondOpeningWaitsIff(events: seq<Event>, states: seq<Kernel>, i: nat, pid: Pid, e: OpenFile)
    requires IsRun(events, states) && i <= |events| && Free(states[i], pid) &&
      FirstOf(states[i].held[pid], e.file).Some?
    ensures WaitsForItself(Open(states[i], pid, e), pid, e.file) <==>
            e.isWrite || Granted(states[i], pid, OpenFile(e.file, true))
  {
    var g := FirstOf(states[i].held[pid], e.file).value;
    LocksStaySafe(events, states, i);
    CloserIsAtHead(states[i], pid, g);
    assert g == OpenFile(e.file, g.isWrite);
    assert Granted(states[i], pid, OpenFile(e.file, g.isWrite));
    if Granted(states[i], pid, OpenFile(e.file, true)) {
      WriterIsAlone(states[i], pid, e.file);
    }
  }

  /** ...and then it waits for ever. */
  lemma {:induction false} SelfWaitIsForever(events: seq<Event>, states: seq<Kernel>, i: nat, j: nat, pid: Pid,
                                             f: string)
    requires IsRun(events, states) && i <= j <= |events| && WaitsForItself(states[i], pid, f)
    ensures WaitsForItself(states[j], pid, f)
  {
    if i < j {
      SelfWaitIsForever(events, states, i, j - 1, pid, f);
      LocksStaySafe(events, states, j - 1);
      SelfWaitStays(states[j - 1], events[j - 1], states[j], pid, f);
    }
  }

  lemma SelfWaitStays(s: Kernel, ev: Event, t: Kernel, pid: Pid, f: string)
    requires Inv(s) && Next(s, ev, t) && WaitsForItself(s, pid, f)
    ensures WaitsForItself(t, pid, f)
  {
    var w :| Granted(s, pid, OpenFile(f, w));
    SelfWaiterIsBehind(s, pid, f);
    match ev
    case Started(p) =>
      assert Granted(t, pid, OpenFile(f, w));
    case Opened(p, e) =>
      assert Granted(t, pid, OpenFile(f, w));
    case Woken(p, i) =>
      WakeKeeps(s, p, i);
      assert Granted(t, pid, OpenFile(f, w));
    case Closed(p, g) =>
      assert Granted(t, pid, OpenFile(f, w));
    case Ended(p) =>
      EliminateOthers(s, p, pid);
      assert Granted(t, pid, OpenFile(f, w));
  }

  lemma {:induction false} EliminateOthers(s: Kernel, pid: Pid, other: Pid)
    requires pid in s.held && other in s.held && other != pid && Eliminate(s, pid).Some?
    ensures var t := Eliminate(s, pid).value;
      other in t.held && t.held[other] == s.held[other] && t.blocked == s.blocked
    decreases |s.held[pid]|
  {
    if s.held[pid] != [] {
      var e := s.held[pid][0];
      EliminateOthers(CloseAt(s, pid, e, LockOf(Queue(s, e.file), pid).value), pid, other);
    }
  }
}
