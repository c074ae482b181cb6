/** The kernel's blocked queues and resource counters, updated in place. */
module ResourceTable {
  import opened Paging
  import opened Resources
  import opened Deadlocks

  class Kernel {
    var blocks: map<string, Block>
    var posts: nat
    var live: set<Pid>

    constructor (totals: map<string, nat>)
      ensures Initial(totals, Abs())
    {
      blocks := map r | r in totals :: Block(totals[r], map[], []);
      posts, live := 0, {};
    }

    function Abs(): Table
      reads this
    {
      Table(blocks, posts, live)
    }

    /** wait_instance_of_resource: the process goes on with an instance, or blocks and the analysis is made. */
    method WaitInstance(pid: Pid, r: string) returns (goesOn: bool, reported: bool)
      requires r in blocks
      modifies this`blocks
      ensures Abs() == old(Wait(Abs(), pid, r)) && goesOn == old(blocks[r].instances > 0)
      ensures reported == (!goesOn && Reports(Abs(), r))
    {
      var b := blocks[r];
      reported := false;
      goesOn := b.instances > 0;
      if goesOn {
        blocks := blocks[r := Used(b, pid)];
      } else {
        blocks := blocks[r := b.(blocked := b.blocked + [pid])];
        reported := Analyze(r);
      }
    }

    /** signal_instance_of_resource: without an instance to give back the process is sent to EXIT. */
    method SignalInstance(pid: Pid, r: string) returns (goesOn: bool)
      requires r in blocks
      modifies this`blocks, this`posts
      ensures goesOn == old(pid in blocks[r].pids)
      ensures Abs() == old(if pid in blocks[r].pids then Signal(Abs(), pid, r) else Abs())
    {
      var b := blocks[r];
      goesOn := pid in b.pids;
      if goesOn {
        b := b.(instances := b.instances + 1);
        var left := b.pids[pid] - 1;
        b := b.(pids := if left == 0 then b.pids - {pid} else b.pids[pid := left]);
        blocks := blocks[r := b];
        posts := posts + 1;
      }
    }

    /** One turn of unblock_processes: every resource with a free instance serves the first process of its list. */
    method ServeFreed()
      requires posts > 0
      modifies this`blocks, this`posts
      ensures Abs() == old(Unblock(Abs()))
    {
      posts := posts - 1;
      var left := blocks.Keys;
      while left != {}
        invariant left <= blocks.Keys == old(blocks.Keys) && posts == old(posts) - 1
        invariant forall r :: r in blocks ==> blocks[r] == if r in left then old(blocks[r]) else old(Served(blocks[r]))
        decreases left
      {
        var r :| r in left;
        var b := blocks[r];
        if b.instances >= 1 && |b.blocked| >= 1 {
          blocks := blocks[r := Used(b.(blocked := b.blocked[1..]), b.blocked[0])];
        }
        left := left - {r};
      }
      assert blocks == old(Unblock(Abs()).blocks);
    }

    /** The callbacks that take the process out of one block. */
    static method ClearBlock(b: Block, pid: Pid) returns (c: Block, freed: bool)
      ensures c == Cleared(b, pid) && freed == (pid in b.pids)
    {
      c := b.(blocked := RemoveFirst(b.blocked, pid));
      freed := pid in c.pids;
      if freed {
        c := c.(instances := c.instances + c.pids[pid], pids := c.pids - {pid});
      }
    }

    /** finalizar_proceso on a blocked process, and the resource half of eliminar_proceso: one post per resource
        held. */
    method RemoveProcess(pid: Pid)
      modifies this
      ensures Abs() == old(Remove(Abs(), pid))
    {
      ghost var s := Abs();
      var count := FreeInstances(pid);
      posts := posts + count;
      live := live - {pid};
      assert blocks == Remove(s, pid).blocks;
    }

    /** dictionary_iterator over the blocks; the result counts the posts of freed_resource. */
    method FreeInstances(pid: Pid) returns (count: nat)
      modifies this`blocks
      ensures count == |old(HeldBy(Abs(), pid))| && blocks.Keys == old(blocks.Keys)
      ensures forall r :: r in blocks ==> blocks[r] == old(Cleared(blocks[r], pid))
    {
      ghost var before := blocks;
      ghost var served: set<string> := {};
      var left := blocks.Keys;
      count := 0;
      while left != {}
        invariant left <= blocks.Keys == before.Keys
        invariant forall r :: r in left ==> blocks[r] == before[r]
        invariant forall r :: r in before && r !in left ==> blocks[r] == Cleared(before[r], pid)
        invariant served == set r | r in before && r !in left && pid in before[r].pids
        invariant count == |served|
        decreases left
      {
        var r :| r in left;
        var b, freed := ClearBlock(blocks[r], pid);
        if freed {
          count := count + 1;
          served := served + {r};
        }
        blocks := blocks[r := b];
        left := left - {r};
      }
      assert served == old(HeldBy(Abs(), pid));
    }

    /** The resources in whose lists the process is blocked. */
    method WaitsFor(pid: Pid) returns (resources: set<string>)
      ensures resources == set r | r in blocks && pid in blocks[r].blocked
    {
      resources := {};
      var left := blocks.Keys;
      while left != {}
        invariant left <= blocks.Keys
        invariant resources == set r | r in blocks && r !in left && pid in blocks[r].blocked
        decreases left
      {
        var r :| r in left;
        if pid in blocks[r].blocked {
          resources := resources + {r};
        }
        left := left - {r};
      }
    }

    /** analize_resource_deadlock: holders and waiters of the resource, the resources each of them waits for, and
        whether every one of them waits for some. */
    method Analyze(r: string) returns (allBlocked: bool)
      requires r in blocks
      ensures allBlocked == Reports(Abs(), r)
    {
      var left := Involved(blocks[r]);
      allBlocked := true;
      while left != {}
        invariant left <= Involved(blocks[r])
        invariant allBlocked <==> forall p :: p in Involved(blocks[r]) - left ==> IsBlocked(Abs(), p)
        decreases left
      {
        var p :| p in left;
        var resources := WaitsFor(p);
        assert resources == {} <==> !IsBlocked(Abs(), p) by {
          if IsBlocked(Abs(), p) {
            var u :| u in blocks && p in blocks[u].blocked;
            assert u in resources;
          }
        }
        if resources == {} {
          assert p in Involved(blocks[r]) - (left - {p});
          allBlocked := false;
        }
        left := left - {p};
      }
    }
  }
}
