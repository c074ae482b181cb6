/** The kernel's table of open files, updated in place by the file handlers. */
module FileLockTable {
  import opened Bytes
  import opened Paging
  import opened FileLocks

  class OpenFiles {
    var files: map<string, seq<Lock>>
    var held: map<Pid, seq<OpenFile>>
    var blocked: map<Pid, OpenFile>

    constructor ()
      ensures Abs() == Kernel(map[], map[], map[])
    {
      files, held, blocked := map[], map[], map[];
    }

    function Abs(): Kernel
      reads this
    {
      Kernel(files, held, blocked)
    }

    /** list_find for the first lock that is not a write lock; the length of the queue if there is none. */
    method FindReadLock(q: seq<Lock>) returns (k: nat)
      ensures k <= |q| && (forall i :: 0 <= i < k ==> q[i].isWrite) && (k < |q| ==> !q[k].isWrite)
    {
      k := 0;
      while k < |q| && q[k].isWrite
        invariant k <= |q| && forall i :: 0 <= i < k ==> q[i].isWrite
      {
        k := k + 1;
      }
    }

    /** add_read_lock, with the thread that will wait on the lock if it is blocked. */
    method AddRead(f: string, pid: Pid, blocking: bool)
      requires f in files
      modifies this`files
      ensures files == old(files[f := AddReadLock(files[f], pid, blocking)])
    {
      var q := files[f];
      var k := FindReadLock(q);
      AddReadLockAt(q, pid, blocking, k);
      if k == |q| {
        files := files[f := q + [NewLock(pid, false, blocking)]];
      } else {
        files := files[f := q[k := Joined(q[k], pid, blocking)]];
      }
    }

    /** f_open, for the modes R and W. */
    method FOpen(pid: Pid, e: OpenFile)
      requires Free(Abs(), pid)
      modifies this
      ensures Abs() == old(Open(Abs(), pid, e))
    {
      if e.file !in files {
        files := files[e.file := []];
      }
      var q := files[e.file];
      if !e.isWrite {
        if q != [] && q[0].isWrite {
          AddRead(e.file, pid, true);
          blocked := blocked[pid := e];
        } else {
          AddRead(e.file, pid, false);
          held := held[pid := held[pid] + [e]];
        }
      } else if q != [] {
        files := files[e.file := q + [NewLock(pid, true, true)]];
        blocked := blocked[pid := e];
      } else {
        files := files[e.file := q + [NewLock(pid, true, false)]];
        held := held[pid := held[pid] + [e]];
      }
    }

    /** sem_wait returns in the thread of a waiting process, and the process becomes ready. */
    method WakeUp(pid: Pid, i: nat)
      requires pid in held && pid in blocked && i < |Queue(Abs(), blocked[pid].file)|
      requires Queue(Abs(), blocked[pid].file)[i].posts > 0
      modifies this
      ensures Abs() == old(Wake(Abs(), pid, i))
    {
      var e := blocked[pid];
      var q := files[e.file];
      files := files[e.file := q[i := Awake(q[i], pid)]];
      held := held[pid := held[pid] + [e]];
      blocked := blocked - {pid};
    }

    /** One sem_post for each participant of the new head. */
    method PostAll(f: string)
      requires f in files
      modifies this`files
      ensures files == old(files[f := HandOver(files[f])])
    {
      var q := files[f];
      if q != [] && q[0].isBlocked {
        var posts := q[0].posts;
        for i := 0 to |q[0].participants|
          invariant posts == q[0].posts + i
        {
          posts := posts + 1;
        }
        files := files[f := q[0 := q[0].(posts := posts)]];
      }
    }

    /** close_lock. */
    method Close(pid: Pid, f: string, k: nat)
      requires f in files && k < |files[f]|
      modifies this`files
      ensures files == old(files[f := CloseLock(files[f], pid, k)])
    {
      var q := files[f];
      if q[k].isWrite {
        files := files[f := q[1..]];
        PostAll(f);
      } else {
        var left := RemoveFirst(q[k].participants, pid);
        if left == [] {
          files := files[f := q[1..]];
          PostAll(f);
        } else {
          files := files[f := q[k := q[k].(participants := left)]];
        }
      }
    }

    /** f_close: the open file leaves the PCB and the lock at index 0 is closed. */
    method FClose(pid: Pid, f: string)
      requires pid in held && FirstOf(held[pid], f).Some? && Queue(Abs(), f) != []
      modifies this
      ensures Abs() == old(CloseAt(Abs(), pid, FirstOf(held[pid], f).value, 0))
    {
      held := held[pid := RemoveFirst(held[pid], FirstOf(held[pid], f).value)];
      Close(pid, f, 0);
    }

    /** eliminar_proceso on the open files of the process. */
    method EliminateProcess(pid: Pid)
      requires pid in held && Eliminate(Abs(), pid).Some?
      modifies this
      ensures Some(Abs()) == old(Eliminate(Abs(), pid))
    {
      while held[pid] != []
        invariant pid in held && Eliminate(Abs(), pid) == old(Eliminate(Abs(), pid))
        decreases |held[pid]|
      {
        var e := held[pid][0];
        var k := LockOf(Queue(Abs(), e.file), pid);
        ghost var before := Abs();
        held := held[pid := held[pid][1..]];
        Close(pid, e.file, k.value);
        assert Abs() == CloseAt(before, pid, e, k.value);
      }
      held := held - {pid};
    }
  }

  /** The queue after a reader joined it, by the place of its first read lock. */
  lemma {:induction false} AddReadLockAt(q: seq<Lock>, pid: Pid, blocking: bool, k: nat)
    requires k <= |q| && (forall i :: 0 <= i < k ==> q[i].isWrite) && (k < |q| ==> !q[k].isWrite)
    ensures AddReadLock(q, pid, blocking) ==
            if k == |q| then q + [NewLock(pid, false, blocking)] else q[k := Joined(q[k], pid, blocking)]
  {
    if k > 0 {
      AddReadLockAt(q[1..], pid, blocking, k - 1);
    }
  }
}
