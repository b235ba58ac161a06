/** The registry of simulated processes: a distinguished current process, pids
    handed out in steps of 4, and the system calls that open, close and
    dereference handles in the current process's table. */
module Kernel {
  import opened Handles
  import opened Memory
  import opened Thread
  import opened Process

  const SystemPid: int := 4
  const CurrentPid: int := 9999
  const PidStep: int := 4
  const CurrentProcessName: string := "CurrentTestRunner.exe"

  const TwoTo63: int := 0x8000_0000_0000_0000
  const TwoTo64: int := 0x1_0000_0000_0000_0000

  /** `BigInt.asIntN(64, x)`: `x` read as a signed 64-bit value. */
  function AsInt64(x: int): (r: int)
    ensures -TwoTo63 <= r < TwoTo63
    ensures (x - r) % TwoTo64 == 0
  {
    var m := x % TwoTo64;
    if m >= TwoTo63 then m - TwoTo64 else m
  }

  /** Both spellings of the pseudo-handles, unsigned and signed, read as -1 and -2. */
  lemma PseudoHandleValues()
    ensures AsInt64(0xffff_ffff_ffff_ffff) == -1 && AsInt64(-1) == -1
    ensures AsInt64(0xffff_ffff_ffff_fffe) == -2 && AsInt64(-2) == -2
    ensures forall h :: 0 <= h < TwoTo63 ==> AsInt64(h) == h
  {
  }

  /** A multiple of 4, as every minted handle is, is neither pseudo-handle. */
  lemma MintedNotPseudo(h: int)
    requires h % HandleStep == 0
    ensures AsInt64(h) != -1 && AsInt64(h) != -2
  {
    var m := h % TwoTo64;
    assert m % HandleStep == 0;
  }

  /** The index of the first process, in `procs`, that has a thread `tid`. */
  function FirstWithThread(procs: seq<SimulatedProcess>, tid: int): (r: Option<nat>)
    reads procs
    ensures r.Some? ==> r.value < |procs| && tid in procs[r.value].threads
    ensures r.Some? ==> forall j :: 0 <= j < r.value ==> tid !in procs[j].threads
    ensures r.None? ==> forall j :: 0 <= j < |procs| ==> tid !in procs[j].threads
  {
    if procs == [] then None
    else if tid in procs[0].threads then Some(0)
    else
      match FirstWithThread(procs[1..], tid)
      case None => None
      case Some(i) => Some(i + 1)
  }

  class Kernel {
    var processes: map<int, SimulatedProcess>
    /** The keys of `processes` in insertion order. */
    var processOrder: seq<int>
    var nextPid: int
    const currentProcess: SimulatedProcess
    /** Every process ever registered, including ones a later registration
        replaced: handles may still designate them. */
    ghost var known: set<SimulatedProcess>

    /** The address spaces of all known processes. */
    ghost function Memories(): set<MemoryManager>
      reads this
    {
      set p | p in known :: p.memory
    }

    ghost predicate Valid()
      reads this, currentProcess.handles, known, Memories()
    {
      nextPid >= PidStep && nextPid % PidStep == 0 &&
      CurrentPid in processes && processes[CurrentPid] == currentProcess &&
      currentProcess.id == CurrentPid &&
      Distinct(processOrder) &&
      (forall pid :: pid in processes <==> pid in processOrder) &&
      (forall pid :: pid in processes ==> processes[pid].id == pid && processes[pid] in known) &&
      (forall p :: p in known ==> p.Valid() && p.memory.Valid()) &&
      currentProcess.handles.Valid() &&
      (forall h :: h in currentProcess.handles.handles && currentProcess.handles.handles[h].obj.ProcessObj? ==>
         currentProcess.handles.handles[h].obj.process in known)
    }

    /** The registered processes in insertion order. */
    function OrderedProcesses(): (procs: seq<SimulatedProcess>)
      requires forall i :: 0 <= i < |processOrder| ==> processOrder[i] in processes
      reads this
      ensures |procs| == |processOrder|
      ensures forall i :: 0 <= i < |procs| ==> procs[i] == processes[processOrder[i]]
    {
      var order := processOrder;
      var registered := processes;
      seq(|order|, i requires 0 <= i < |order| => registered[order[i]])
    }

    /** Bootstrap: the System process (pid 4, no threads) and the current
        process (pid 9999) with one initial thread, tid 1000. */
    constructor()
      ensures Valid()
      ensures nextPid == PidStep && processOrder == [SystemPid, CurrentPid]
      ensures processes[SystemPid].name == "System" && processes[SystemPid].threads == map[]
      ensures processes[SystemPid] != currentProcess
      ensures currentProcess.name == CurrentProcessName
      ensures currentProcess.threadOrder == [FirstThreadId] && currentProcess.threads.Keys == {FirstThreadId}
      ensures currentProcess.nextThreadId == FirstThreadId + 1
      ensures var t := currentProcess.threads[FirstThreadId];
        t.state == Initialized && t.suspendCount == 0 && t.context == DefaultContext
      ensures currentProcess.memory.pages == map[] && processes[SystemPid].memory.pages == map[]
      ensures currentProcess.handles.handles == map[] && currentProcess.handles.nextHandleValue == FirstHandle
      ensures fresh(currentProcess) && fresh(currentProcess.handles)
    {
      var sys := new SimulatedProcess(SystemPid, "System");
      var cur := new SimulatedProcess(CurrentPid, CurrentProcessName);
      processes := map[SystemPid := sys, CurrentPid := cur];
      processOrder := [SystemPid, CurrentPid];
      nextPid := PidStep;
      currentProcess := cur;
      known := {sys, cur};
      new;
      var t := currentProcess.CreateThread();
    }

    /** `createProcess`: the next pid, then the counter moves on by 4. An entry
        already registered under that pid is replaced in place. */
    method CreateProcess(name: string) returns (proc: SimulatedProcess)
      requires Valid()
      modifies this
      ensures Valid()
      ensures fresh(proc) && proc.id == old(nextPid) && proc.name == name
      ensures proc.threads == map[] && proc.memory.pages == map[]
      ensures nextPid == old(nextPid) + PidStep
      ensures processes == old(processes)[proc.id := proc]
      ensures processOrder == if proc.id in old(processes) then old(processOrder) else old(processOrder) + [proc.id]
    {
      var pid := nextPid;
      proc := new SimulatedProcess(pid, name);
      var order := if pid in processes then processOrder else processOrder + [pid];
      nextPid, processOrder, processes, known := nextPid + PidStep, order, processes[pid := proc], known + {proc};
    }

    /** `getProcess`: the process registered under `pid`, if any. */
    function GetProcess(pid: int): (r: Option<SimulatedProcess>)
      reads this
      ensures r.Some? <==> pid in processes
      ensures r.Some? ==> r.value == processes[pid]
      ensures Valid() && r.Some? ==> r.value.id == pid
    {
      if pid in processes then Some(processes[pid]) else None
    }

    /** `getObjectFromHandle`: a lookup in the current process's table only. */
    function GetObjectFromHandle(h: int): (r: Option<HandleObject<KernelObject>>)
      reads this, currentProcess.handles
      ensures r.Some? <==> h in currentProcess.handles.handles
      ensures r.Some? ==> r.value == currentProcess.handles.handles[h]
    {
      currentProcess.handles.GetObject(h)
    }

    /** `GetProcessId`: the current pid for -1, the target's id for a process
        handle, otherwise 0. */
    function GetProcessId(h: int): (pid: int)
      reads this, currentProcess.handles
      ensures AsInt64(h) == -1 ==> pid == currentProcess.id
      ensures AsInt64(h) != -1 && pid != 0 ==>
        h in currentProcess.handles.handles && currentProcess.handles.handles[h].kind == ProcessHandle &&
        pid == ObjectId(currentProcess.handles.handles[h].obj)
      ensures AsInt64(h) != -1 && h in currentProcess.handles.handles ==>
        (currentProcess.handles.handles[h].kind == ProcessHandle ==> pid == ObjectId(currentProcess.handles.handles[h].obj))
      ensures AsInt64(h) != -1 && h !in currentProcess.handles.handles ==> pid == 0
      ensures AsInt64(h) != -1 && h in currentProcess.handles.handles ==>
        (currentProcess.handles.handles[h].kind != ProcessHandle ==> pid == 0)
    {
      if AsInt64(h) == -1 then currentProcess.id
      else
        match GetObjectFromHandle(h)
        case Some(HandleObject(ProcessHandle, obj, _)) => ObjectId(obj)
        case _ => 0
    }

    /** `GetThreadId`: the current process's first thread id (or 0) for -2, the
        thread's id for a thread handle, otherwise 0. */
    function GetThreadId(h: int): (tid: int)
      reads this, currentProcess, currentProcess.handles
      ensures AsInt64(h) == -2 && currentProcess.threadOrder != [] ==> tid == currentProcess.threadOrder[0]
      ensures AsInt64(h) != -2 && tid != 0 ==>
        h in currentProcess.handles.handles && currentProcess.handles.handles[h].kind == ThreadHandle &&
        tid == ObjectId(currentProcess.handles.handles[h].obj)
      ensures AsInt64(h) == -2 && currentProcess.threadOrder == [] ==> tid == 0
      ensures AsInt64(h) != -2 && h in currentProcess.handles.handles ==>
        (currentProcess.handles.handles[h].kind == ThreadHandle ==> tid == ObjectId(currentProcess.handles.handles[h].obj))
      ensures AsInt64(h) != -2 && h !in currentProcess.handles.handles ==> tid == 0
      ensures AsInt64(h) != -2 && h in currentProcess.handles.handles ==>
        (currentProcess.handles.handles[h].kind != ThreadHandle ==> tid == 0)
    {
      if AsInt64(h) == -2 then
        (if currentProcess.threadOrder == [] then 0 else currentProcess.threadOrder[0])
      else
        match GetObjectFromHandle(h)
        case Some(HandleObject(ThreadHandle, obj, _)) => ObjectId(obj)
        case _ => 0
    }

    /** `OpenProcess`: 0 for an unregistered pid; otherwise a new process handle
        to the target in the current process's table. */
    method OpenProcess(desiredAccess: int, inheritHandle: bool, processId: int) returns (h: int)
      requires Valid()
      modifies currentProcess.handles
      ensures Valid()
      ensures processId !in processes ==> h == 0 && currentProcess.handles.handles == old(currentProcess.handles.handles)
      ensures processId in processes ==>
        h == old(currentProcess.handles.nextHandleValue) && h >= FirstHandle &&
        currentProcess.handles.handles ==
          old(currentProcess.handles.handles)[h := HandleObject(ProcessHandle, ProcessObj(processes[processId]), desiredAccess)]
      ensures currentProcess.handles.nextHandleValue == old(currentProcess.handles.nextHandleValue) + (if h == 0 then 0 else HandleStep)
      ensures h != 0 ==> GetProcessId(h) == processId
    {
      if processId !in processes {
        return 0;
      }
      var target := processes[processId];
      h := currentProcess.handles.CreateHandle(ProcessObj(target), ProcessHandle, desiredAccess);
      MintedNotPseudo(h);
    }

    /** `OpenThread`: scans the processes in insertion order and opens a thread
        handle to the first thread with that id; 0 when there is none. */
    method OpenThread(desiredAccess: int, inheritHandle: bool, threadId: int) returns (h: int)
      requires Valid()
      modifies currentProcess.handles
      ensures Valid()
      ensures old(FirstWithThread(OrderedProcesses(), threadId)).None? ==>
        h == 0 && currentProcess.handles.handles == old(currentProcess.handles.handles)
      ensures old(FirstWithThread(OrderedProcesses(), threadId)).Some? ==>
        var thread := old(OrderedProcesses()[FirstWithThread(OrderedProcesses(), threadId).value].threads[threadId]);
        h == old(currentProcess.handles.nextHandleValue) && h >= FirstHandle &&
        currentProcess.handles.handles ==
          old(currentProcess.handles.handles)[h := HandleObject(ThreadHandle, ThreadObj(thread), desiredAccess)]
      ensures currentProcess.handles.nextHandleValue == old(currentProcess.handles.nextHandleValue) + (if h == 0 then 0 else HandleStep)
      ensures h != 0 ==> GetThreadId(h) == threadId
    {
      var thread := FindThread(threadId);
      if thread.None? {
        return 0;
      }
      h := currentProcess.handles.CreateHandle(ThreadObj(thread.value), ThreadHandle, desiredAccess);
      MintedNotPseudo(h);
    }

    /** The scan of `OpenThread`: the thread `threadId` of the first process, in
        insertion order, that has one. */
    method FindThread(threadId: int) returns (thread: Option<SimulatedThread>)
      requires Valid()
      ensures thread.None? <==> FirstWithThread(OrderedProcesses(), threadId).None?
      ensures thread.Some? ==>
        thread.value == OrderedProcesses()[FirstWithThread(OrderedProcesses(), threadId).value].threads[threadId] &&
        thread.value.id == threadId
    {
      var procs := OrderedProcesses();
      var i := 0;
      while i < |processOrder|
        invariant 0 <= i <= |processOrder|
        invariant forall j :: 0 <= j < i ==> threadId !in procs[j].threads
      {
        thread := processes[processOrder[i]].GetThread(threadId);
        if thread.Some? {
          FirstWithThreadIsFirst(procs, threadId, i);
          assert procs[i] in known;
          return;
        }
        i := i + 1;
      }
      return None;
    }

    /** `CloseHandle`: -1 and -2 (as signed 64-bit values) succeed without
        touching the table; anything else is closed in the current table. */
    method CloseHandle(h: int) returns (ok: bool)
      requires Valid()
      modifies currentProcess.handles
      ensures Valid()
      ensures ok <==> AsInt64(h) == -1 || AsInt64(h) == -2 || h in old(currentProcess.handles.handles)
      ensures currentProcess.handles.handles ==
        if AsInt64(h) == -1 || AsInt64(h) == -2 then old(currentProcess.handles.handles)
        else old(currentProcess.handles.handles) - {h}
      ensures currentProcess.handles.nextHandleValue == old(currentProcess.handles.nextHandleValue)
    {
      var s := AsInt64(h);
      if s == -1 || s == -2 {
        return true;
      }
      ok := currentProcess.handles.CloseHandle(h);
    }
  }

  /** A process index with the thread, after indices without it, is the first one. */
  lemma {:induction false} FirstWithThreadIsFirst(procs: seq<SimulatedProcess>, tid: int, i: nat)
    requires i < |procs| && tid in procs[i].threads
    requires forall j :: 0 <= j < i ==> tid !in procs[j].threads
    ensures FirstWithThread(procs, tid) == Some(i)
    decreases i
  {
    if i > 0 {
      FirstWithThreadIsFirst(procs[1..], tid, i - 1);
    }
  }

  /** After bootstrap the pseudo-handles resolve to pid 9999 and tid 1000, and
      the first `createProcess` takes pid 4, replacing System in place. */
  method BootstrapScenario() returns (pid: int, tid: int, created: int, order: seq<int>)
    ensures pid == 9999 && tid == 1000
    ensures created == 4 && order == [SystemPid, CurrentPid]
  {
    var k := new Kernel();
    PseudoHandleValues();
    pid := k.GetProcessId(0xffff_ffff_ffff_ffff);
    tid := k.GetThreadId(0xffff_ffff_ffff_fffe);
    var proc := k.CreateProcess("notepad.exe");
    created := proc.id;
    order := k.processOrder;
  }

  /** Opening the current process on a fresh registry yields handle 4, which
      names pid 9999 and closes exactly once. */
  method OpenCloseScenario() returns (handle: int, openedPid: int, closedOnce: bool, closedTwice: bool)
    ensures handle == 4 && openedPid == 9999
    ensures closedOnce && !closedTwice
  {
    var k := new Kernel();
    handle := k.OpenProcess(0x1fffff, false, CurrentPid);
    openedPid := k.GetProcessId(handle);
    closedOnce := k.CloseHandle(handle);
    PseudoHandleValues();
    closedTwice := k.CloseHandle(handle);
  }

  /** On a fresh registry thread 1000 can be opened and thread 5 cannot. */
  method OpenThreadScenario() returns (found: int, foundTid: int, missing: int)
    ensures found == 4 && foundTid == 1000 && missing == 0
  {
    var k := new Kernel();
    var procs := k.OrderedProcesses();
    assert procs == [k.processes[SystemPid], k.currentProcess];
    assert 5 !in procs[0].threads && 5 !in procs[1].threads;
    missing := k.OpenThread(0x1fffff, false, 5);
    assert FirstWithThread(procs, 1000) == Some(1) by {
      FirstWithThreadIsFirst(procs, 1000, 1);
    }
    found := k.OpenThread(0x1fffff, false, 1000);
    foundTid := k.GetThreadId(found);
  }
}
