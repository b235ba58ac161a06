/** A simulated process: one address space, one handle table, the threads it
    owns in creation order, the modules loaded into it and an exit code. */
module Process {
  import opened Handles
  import opened Memory
  import opened Thread
  import opened Modules

  /** What a handle can designate. */
  datatype KernelObject = ProcessObj(process: SimulatedProcess) | ThreadObj(thread: SimulatedThread)

  /** The `id` of the designated object. */
  function ObjectId(o: KernelObject): int {
    match o
    case ProcessObj(p) => p.id
    case ThreadObj(t) => t.id
  }

  /** The first thread id a process hands out. */
  const FirstThreadId: int := 1000

  predicate Distinct(s: seq<int>) {
    forall i, j :: 0 <= i < j < |s| ==> s[i] != s[j]
  }

  class SimulatedProcess {
    const id: int
    const name: string
    const memory: MemoryManager
    const handles: HandleTable<KernelObject>
    var threads: map<int, SimulatedThread>
    /** The keys of `threads` in insertion order. */
    var threadOrder: seq<int>
    var exitCode: Option<int>
    var nextThreadId: int
    /** The loaded modules, in insertion order. The process of the source
        declares no such list; `GetModuleInformation` reads one, and as
        written that read throws. */
    var modules: seq<SimulatedModule>

    /** Every thread is registered under its own id, below the counter, and
        names this process as its owner. */
    ghost predicate Valid()
      reads this
    {
      nextThreadId >= FirstThreadId &&
      Distinct(threadOrder) &&
      (forall t :: t in threads <==> t in threadOrder) &&
      forall t :: t in threads ==>
        t < nextThreadId && threads[t].id == t && threads[t].ownerProcessId == id
    }

    /** A new process: the given id and name, no threads, no exit code, and a
        fresh empty address space and handle table. */
    constructor(pid: int, name: string)
      ensures Valid()
      ensures id == pid && this.name == name
      ensures threads == map[] && threadOrder == [] && exitCode == None && modules == []
      ensures nextThreadId == FirstThreadId
      ensures fresh(memory) && memory.Valid() && memory.pages == map[]
      ensures fresh(handles) && handles.Valid() && handles.handles == map[] && handles.nextHandleValue == FirstHandle
    {
      id := pid;
      this.name := name;
      memory := new MemoryManager();
      handles := new HandleTable<KernelObject>();
      threads := map[];
      threadOrder := [];
      exitCode := None;
      nextThreadId := FirstThreadId;
      modules := [];
    }

    /** `createThread`: the counter becomes the new, unused thread id, owned by
        this process and registered last; the counter moves on by one. */
    method CreateThread() returns (t: SimulatedThread)
      requires Valid()
      modifies this
      ensures Valid()
      ensures fresh(t) && t.id == old(nextThreadId) && t.ownerProcessId == id
      ensures t.state == Initialized && t.suspendCount == 0 && t.context == DefaultContext
      ensures t.id !in old(threads)
      ensures nextThreadId == old(nextThreadId) + 1
      ensures threads == old(threads)[t.id := t] && threadOrder == old(threadOrder) + [t.id]
      ensures exitCode == old(exitCode) && modules == old(modules)
    {
      var tid := nextThreadId;
      nextThreadId := nextThreadId + 1;
      t := new SimulatedThread(tid, id);
      assert tid !in threadOrder;
      threads := threads[tid := t];
      threadOrder := threadOrder + [tid];
    }

    /** `getThread`: the registered thread with that id, if any. */
    function GetThread(tid: int): (r: Option<SimulatedThread>)
      reads this
      ensures r.Some? <==> tid in threads
      ensures r.Some? ==> r.value == threads[tid]
    {
      if tid in threads then Some(threads[tid]) else None
    }

    /** `terminate`: records the exit code and forgets every thread; the address
        space, the handles and the thread-id counter stay as they are. */
    method Terminate(code: int := 0)
      requires Valid()
      modifies this
      ensures Valid()
      ensures exitCode == Some(code)
      ensures threads == map[] && threadOrder == []
      ensures nextThreadId == old(nextThreadId) && modules == old(modules)
    {
      exitCode := Some(code);
      threads := map[];
      threadOrder := [];
    }
  }

  /** Thread ids run 1000, 1001, ... and are not reused after `terminate`. */
  method ThreadIdScenario() returns (first: int, second: int, afterTerminate: int, exit: Option<int>)
    ensures first == 1000 && second == 1001 && afterTerminate == 1002
    ensures exit == Some(0)
  {
    var p := new SimulatedProcess(8, "game.exe");
    var t1 := p.CreateThread();
    var t2 := p.CreateThread();
    p.Terminate();
    var t3 := p.CreateThread();
    first, second, afterTerminate, exit := t1.id, t2.id, t3.id, p.exitCode;
  }
}
