/** The kernel's queues and semaphores, updated in place by its threads and handlers. */
module ProcessQueues {
  import opened Bytes
  import opened Paging
  import opened Scheduler

  lemma ReturnGoesOn(s: Kernel, r: Reason)
    requires In(s, Exec) != [] && OutcomeOf(r).GoesOn?
    ensures Returned(s, r) == s.(running := false, marked := s.marked - {In(s, Exec)[0]}, execPosts := s.execPosts + 1)
  {
  }

  lemma ReturnLeaves(s: Kernel, r: Reason)
    requires In(s, Exec) != [] && OutcomeOf(r).Leaves?
    ensures Returned(s, r) == s.(running := false, marked := s.marked - {In(s, Exec)[0]},
      lists := Moved(s.lists, Exec, Exit, In(s, Exec)[0]), grd := s.grd + 1, readyPosts := s.readyPosts + 1,
      exitPosts := s.exitPosts + 1)
  {
  }

  class Queues {
    var lists: Lists
    var live: set<Pid>
    var marked: set<Pid>
    var newPosts: nat
    var grd: nat
    var readyPosts: nat
    var execPosts: nat
    var exitPosts: nat
    var finishPosts: nat
    var admitting: bool
    var running: bool
    var finishing: set<Pid>
    var message: bool
    var next: Pid

    constructor (degree: nat)
      ensures Initial(degree, Abs())
    {
      lists, live, marked, finishing := map[], {}, {}, {};
      newPosts, grd, readyPosts, execPosts, exitPosts, finishPosts := 0, degree, 0, 0, 0, 0;
      admitting, running, message, next := false, false, false, 1;
    }

    function Abs(): Kernel
      reads this
    {
      Kernel(lists, live, marked, newPosts, grd, readyPosts, execPosts, exitPosts, finishPosts, admitting, running,
             finishing, message, next)
    }

    /** agregar_pcb_a_cola_READY. */
    method AddToReady(pid: Pid)
      modifies this`lists, this`readyPosts
      ensures lists == old(Put(lists, Ready, pid)) && readyPosts == old(readyPosts) + 1
    {
      lists := Put(lists, Ready, pid);
      readyPosts := readyPosts + 1;
    }

    /** send_to_exit. */
    method SendToExit(pid: Pid)
      modifies this`lists, this`grd, this`readyPosts, this`exitPosts
      ensures lists == old(Put(lists, Exit, pid)) && grd == old(grd) + 1
      ensures readyPosts == old(readyPosts) + 1 && exitPosts == old(exitPosts) + 1
    {
      grd := grd + 1;
      lists := Put(lists, Exit, pid);
      readyPosts := readyPosts + 1;
      exitPosts := exitPosts + 1;
    }

    /** list_get_minimum: one pass that keeps the earlier of two equals. */
    method Minimum(queue: seq<Pid>, priority: map<Pid, int>) returns (m: nat)
      requires queue != []
      ensures m == MinIndex(queue, priority)
    {
      m := 0;
      for i := 1 to |queue|
        invariant m == MinIndex(queue[..i], priority)
      {
        assert queue[..i + 1][..i] == queue[..i];
        if Value(priority, queue[m]) > Value(priority, queue[i]) {
          m := i;
        }
      }
      assert queue[..|queue|] == queue;
    }

    /** A turn of planificador_fifo, planificador_rr or planificador_prioridades; the interrupts they may send are
        answered by Interrupted. */
    method ShortTermTurn(policy: Policy, priority: map<Pid, int>)
      requires readyPosts > 0
      modifies this`readyPosts, this`lists, this`execPosts
      ensures Abs() == old(Dispatched(Abs(), policy, priority))
    {
      readyPosts := readyPosts - 1;
      var queue := At(lists, Ready);
      if At(lists, Exec) == [] && queue != [] {
        var k := 0;
        if policy == Priorities && |queue| > 1 {
          k := Minimum(queue, priority);
        }
        var pid := queue[k];
        lists := Taken(lists, Ready, pid);
        lists := Put(lists, Exec, pid);
        execPosts := execPosts + 1;
      }
    }

    /** planificador_largo_plazo after sem_wait on process_in_new. */
    method StartAdmitting()
      requires newPosts > 0
      modifies this`newPosts, this`admitting
      ensures Abs() == old(AdmissionStarted(Abs()))
    {
      newPosts := newPosts - 1;
      admitting := At(lists, New) != [];
    }

    /** planificador_largo_plazo after sem_wait on grd_mult. */
    method AdmitFirst()
      requires grd > 0 && At(lists, New) != []
      modifies this`lists, this`grd, this`readyPosts, this`admitting
      ensures Abs() == old(Admitted(Abs()))
    {
      grd := grd - 1;
      var pid := At(lists, New)[0];
      lists := Taken(lists, New, pid);
      AddToReady(pid);
      admitting := false;
    }

    /** execute_process after sem_wait on executing_process. */
    method SendToCpu()
      requires execPosts > 0
      modifies this`execPosts, this`running
      ensures Abs() == old(Sent(Abs()))
    {
      execPosts := execPosts - 1;
      running := At(lists, Exec) != [];
    }

    /** destroy_executing_process, and the wait that its thread starts. */
    method BlockExecuting(pid: Pid, p: Place)
      requires At(lists, Exec) != [] && pid == At(lists, Exec)[0]
      modifies this`lists, this`readyPosts
      ensures lists == old(Moved(lists, Exec, p, pid)) && readyPosts == old(readyPosts) + 1
    {
      lists := Taken(lists, Exec, pid);
      lists := Put(lists, p, pid);
      readyPosts := readyPosts + 1;
    }

    /** destroy_executing_process and send_to_exit. */
    method ExitExecuting(pid: Pid)
      requires At(lists, Exec) != [] && pid == At(lists, Exec)[0]
      modifies this`lists, this`grd, this`readyPosts, this`exitPosts
      ensures lists == old(Moved(lists, Exec, Exit, pid)) && grd == old(grd) + 1
      ensures readyPosts == old(readyPosts) + 1 && exitPosts == old(exitPosts) + 1
    {
      lists := Taken(lists, Exec, pid);
      SendToExit(pid);
    }

    /** f_open on its way through the switch; a mode that is neither R nor W posts nothing. */
    method AfterOpen(pid: Pid, mode: Mode, mustWait: bool)
      requires At(lists, Exec) != [] && pid == At(lists, Exec)[0]
      modifies this`lists, this`readyPosts, this`execPosts
      ensures lists == old(if mode != OtherMode && mustWait then Moved(lists, Exec, FileWait, pid) else lists)
      ensures readyPosts == old(readyPosts) + One(mode != OtherMode && mustWait)
      ensures execPosts == old(execPosts) + One(mode != OtherMode && !mustWait)
    {
      if mode == ReadMode || mode == WriteMode {
        if mustWait {
          BlockExecuting(pid, FileWait);
        } else {
          execPosts := execPosts + 1;
        }
      }
    }

    /** The file handlers among the cases of execute_process. */
    method ReceiveFileCall(r: Reason)
      requires At(lists, Exec) != [] && (r.FSeek? || r.FClose? || r.FTruncate? || r.FRead? || r.FWrite? || r.FOpen?)
      modifies this`lists, this`marked, this`grd, this`readyPosts, this`execPosts, this`exitPosts, this`running
      ensures Abs() == old(Returned(Abs(), r))
    {
      var pid := At(lists, Exec)[0];
      running := false;
      marked := marked - {pid};
      match r {
        case FSeek | FClose => execPosts := execPosts + 1;
        case FTruncate | FRead => BlockExecuting(pid, FileCall);
        case FWrite(forwarded) => if forwarded { BlockExecuting(pid, FileCall); } else { ExitExecuting(pid); }
        case FOpen(mode, mustWait) => AfterOpen(pid, mode, mustWait);
      }
    }

    /** WAIT, after the resource was looked up. */
    method ReceiveWait(resource: string, known: bool, free: bool)
      requires At(lists, Exec) != []
      modifies this`lists, this`marked, this`grd, this`readyPosts, this`execPosts, this`exitPosts, this`running
      ensures Abs() == old(Returned(Abs(), WaitedFor(resource, known, free)))
    {
      ghost var s, r := Abs(), WaitedFor(resource, known, free);
      var pid := At(lists, Exec)[0];
      running := false;
      marked := marked - {pid};
      if !known {
        ExitExecuting(pid);
        ReturnLeaves(s, r);
      } else if free {
        execPosts := execPosts + 1;
        ReturnGoesOn(s, r);
      } else {
        BlockExecuting(pid, Blocked(resource));
      }
    }

    /** SIGNAL, after the resource was looked up. */
    method ReceiveSignal(known: bool, holds: bool)
      requires At(lists, Exec) != []
      modifies this`lists, this`marked, this`grd, this`readyPosts, this`execPosts, this`exitPosts, this`running
      ensures Abs() == old(Returned(Abs(), SignaledTo(known, holds)))
    {
      ghost var s := Abs();
      var pid := At(lists, Exec)[0];
      running := false;
      marked := marked - {pid};
      if known && holds {
        execPosts := execPosts + 1;
        ReturnGoesOn(s, SignaledTo(known, holds));
      } else {
        ExitExecuting(pid);
        ReturnLeaves(s, SignaledTo(known, holds));
      }
    }

    /** The switch of execute_process on the reason the CPU returned. */
    method ReceiveFromCpu(r: Reason)
      requires At(lists, Exec) != []
      modifies this`lists, this`marked, this`grd, this`readyPosts, this`execPosts, this`exitPosts, this`finishPosts,
        this`running, this`message
      ensures Abs() == old(Returned(Abs(), r))
    {
      match r {
        case WaitedFor(resource, known, free) => ReceiveWait(resource, known, free);
        case SignaledTo(known, holds) => ReceiveSignal(known, holds);
        case Interrupted => ReceiveStop(r, Interrupt);
        case Slept => ReceiveStop(r, Sleep);
        case PageFaulted => ReceiveStop(r, Fault);
        case InterruptFinish =>
          running := false;
          marked := marked - {At(lists, Exec)[0]};
          finishPosts := finishPosts + 1;
          message := false;
        case Finished =>
          running := false;
          marked := marked - {At(lists, Exec)[0]};
          ExitExecuting(At(lists, Exec)[0]);
        case _ => ReceiveFileCall(r);
      }
    }

    /** check_interrupt between two instructions: a message for the running process stops it, any other is thrown
        away. */
    method CheckInterrupt() returns (stops: bool)
      requires At(lists, Exec) != []
      modifies this`message
      ensures stops <==> old(message) && At(lists, Exec)[0] in finishing
      ensures Abs() == if old(message) && !stops then old(Discarded(Abs())) else old(Abs())
    {
      stops := message && At(lists, Exec)[0] in finishing;
      if !stops {
        message := false;
      }
    }

    /** destroy_executing_process and interrupt_process or manage_page_fault. */
    method ReceiveStop(r: Reason, p: Place)
      requires At(lists, Exec) != [] && OutcomeOf(r) == Waits(p)
      modifies this`lists, this`marked, this`readyPosts, this`running
      ensures Abs() == old(Returned(Abs(), r))
    {
      running := false;
      marked := marked - {At(lists, Exec)[0]};
      BlockExecuting(At(lists, Exec)[0], p);
    }

    /** The last part of treat_interrupted_process, treat_page_fault, the lock waits and treat_fs_function. */
    method EndOfWait(p: Place, pid: Pid)
      modifies this`lists, this`live, this`grd, this`readyPosts
      ensures Abs() == old(Woken(Abs(), p, pid))
    {
      lists := Taken(lists, p, pid);
      if (p == Sleep || p == Interrupt) && pid in marked {
        grd := grd + 1;
        live := live - {pid};
      } else {
        AddToReady(pid);
      }
    }

    /** A turn of atender_procesos_en_EXIT. */
    method DrainExit()
      requires exitPosts > 0
      modifies this`lists, this`live, this`exitPosts
      ensures Abs() == old(Drained(Abs()))
    {
      exitPosts := exitPosts - 1;
      if At(lists, Exit) != [] {
        var pid := At(lists, Exit)[0];
        lists := Taken(lists, Exit, pid);
        live := live - {pid};
      }
    }

    /** agregar_pcb_a_cola_NEW, which also counts sig_PID on. */
    method AddToNew(pid: Pid)
      modifies this`lists, this`live, this`newPosts, this`next
      ensures Abs() == old(Created(Abs(), pid))
    {
      lists := Put(lists, New, pid);
      live := live + {pid};
      next := next + 1;
      newPosts := newPosts + 1;
    }

    /** dictionary_iterator over the blocked lists: the process is taken out of the one that has it. */
    method TakeFromBlocked(pid: Pid, resources: set<string>) returns (found: Option<string>)
      modifies this`lists, this`live, this`grd
      ensures match found
        case Some(r) => pid in old(At(lists, Blocked(r))) && Abs() == old(Killed(Abs(), Blocked(r), pid))
        case None => unchanged(this) && forall r :: r in resources ==> pid !in At(lists, Blocked(r))
    {
      var left := resources;
      while left != {}
        invariant left <= resources && unchanged(this)
        invariant forall r :: r in resources && r !in left ==> pid !in At(lists, Blocked(r))
        decreases left
      {
        var r :| r in left;
        if pid in At(lists, Blocked(r)) {
          lists := Taken(lists, Blocked(r), pid);
          grd := grd + 1;
          live := live - {pid};
          return Some(r);
        }
        left := left - {r};
      }
      return None;
    }

    /** finalizar_proceso: the queues are searched in a fixed order and the first that has the process decides; a
        process that waits for a file or for the file system is in none of them. */
    method FinishProcess(pid: Pid, resources: set<string>) returns (found: Option<Place>)
      modifies this`lists, this`live, this`marked, this`grd, this`finishing, this`message
      ensures match found
        case Some(p) => pid in old(At(lists, p)) && Abs() == old(Killed(Abs(), p, pid))
        case None => unchanged(this) && forall p :: pid in At(lists, p) ==>
          p == FileWait || p == FileCall || (p.Blocked? && p.resource !in resources)
    {
      if pid in At(lists, Exec) {
        finishing, message := {pid}, true;
        return Some(Exec);
      }
      if pid in At(lists, New) {
        lists := Taken(lists, New, pid);
        live := live - {pid};
        return Some(New);
      }
      if pid in At(lists, Ready) {
        lists := Taken(lists, Ready, pid);
        grd := grd + 1;
        live := live - {pid};
        return Some(Ready);
      }
      if pid in At(lists, Exit) {
        lists := Taken(lists, Exit, pid);
        live := live - {pid};
        return Some(Exit);
      }
      if pid in At(lists, Sleep) {
        marked := marked + {pid};
        return Some(Sleep);
      }
      if pid in At(lists, Interrupt) || pid in At(lists, Fault) {
        marked := marked + {pid};
        return Some(if pid in At(lists, Interrupt) then Interrupt else Fault);
      }
      var r := TakeFromBlocked(pid, resources);
      return if r.Some? then Some(Blocked(r.value)) else None;
    }
  }
}
