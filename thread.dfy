/** A simulated thread: a scheduling state, a suspend counter and a saved
    register record. */
module Thread {

  datatype ThreadState = Initialized | Ready | Running | Waiting | Terminated

  /** The saved registers. */
  datatype ThreadContext = ThreadContext(
    Rip: int, Rax: int, Rbx: int, Rcx: int, Rdx: int, Rsi: int, Rdi: int, Rbp: int, Rsp: int,
    R8: int, R9: int, R10: int, R11: int, R12: int, R13: int, R14: int, R15: int,
    EFlags: int)

  /** The name of one field of the saved record. */
  datatype Register =
    | RipReg | RaxReg | RbxReg | RcxReg | RdxReg | RsiReg | RdiReg | RbpReg | RspReg
    | R8Reg | R9Reg | R10Reg | R11Reg | R12Reg | R13Reg | R14Reg | R15Reg
    | EFlagsReg

  function Get(ctx: ThreadContext, r: Register): int {
    match r
    case RipReg => ctx.Rip
    case RaxReg => ctx.Rax
    case RbxReg => ctx.Rbx
    case RcxReg => ctx.Rcx
    case RdxReg => ctx.Rdx
    case RsiReg => ctx.Rsi
    case RdiReg => ctx.Rdi
    case RbpReg => ctx.Rbp
    case RspReg => ctx.Rsp
    case R8Reg => ctx.R8
    case R9Reg => ctx.R9
    case R10Reg => ctx.R10
    case R11Reg => ctx.R11
    case R12Reg => ctx.R12
    case R13Reg => ctx.R13
    case R14Reg => ctx.R14
    case R15Reg => ctx.R15
    case EFlagsReg => ctx.EFlags
  }

  /** Some of the fields of a record, as `setContext` receives them. */
  type PartialContext = map<Register, int>

  /** `ctx` with the supplied fields of `partial` copied over it. */
  function Merged(ctx: ThreadContext, partial: PartialContext): ThreadContext {
    ThreadContext(
      Pick(ctx, partial, RipReg), Pick(ctx, partial, RaxReg), Pick(ctx, partial, RbxReg),
      Pick(ctx, partial, RcxReg), Pick(ctx, partial, RdxReg), Pick(ctx, partial, RsiReg),
      Pick(ctx, partial, RdiReg), Pick(ctx, partial, RbpReg), Pick(ctx, partial, RspReg),
      Pick(ctx, partial, R8Reg), Pick(ctx, partial, R9Reg), Pick(ctx, partial, R10Reg),
      Pick(ctx, partial, R11Reg), Pick(ctx, partial, R12Reg), Pick(ctx, partial, R13Reg),
      Pick(ctx, partial, R14Reg), Pick(ctx, partial, R15Reg), Pick(ctx, partial, EFlagsReg))
  }

  function Pick(ctx: ThreadContext, partial: PartialContext, r: Register): int {
    if r in partial then partial[r] else Get(ctx, r)
  }

  /** `setContext` overwrites exactly the supplied fields: each field of the
      merged record is the supplied value if there is one, else the old value. */
  lemma MergedFields(ctx: ThreadContext, partial: PartialContext, r: Register)
    ensures Get(Merged(ctx, partial), r) == if r in partial then partial[r] else Get(ctx, r)
  {
    match r
    case RipReg =>
    case RaxReg =>
    case RbxReg =>
    case RcxReg =>
    case RdxReg =>
    case RsiReg =>
    case RdiReg =>
    case RbpReg =>
    case RspReg =>
    case R8Reg =>
    case R9Reg =>
    case R10Reg =>
    case R11Reg =>
    case R12Reg =>
    case R13Reg =>
    case R14Reg =>
    case R15Reg =>
    case EFlagsReg =>
  }

  /** Two records with the same value in every field are the same record. */
  lemma ContextExtensionality(a: ThreadContext, b: ThreadContext)
    requires forall r :: Get(a, r) == Get(b, r)
    ensures a == b
  {
    assert Get(a, RipReg) == Get(b, RipReg) && Get(a, RaxReg) == Get(b, RaxReg);
    assert Get(a, RbxReg) == Get(b, RbxReg) && Get(a, RcxReg) == Get(b, RcxReg);
    assert Get(a, RdxReg) == Get(b, RdxReg) && Get(a, RsiReg) == Get(b, RsiReg);
    assert Get(a, RdiReg) == Get(b, RdiReg) && Get(a, RbpReg) == Get(b, RbpReg);
    assert Get(a, RspReg) == Get(b, RspReg) && Get(a, R8Reg) == Get(b, R8Reg);
    assert Get(a, R9Reg) == Get(b, R9Reg) && Get(a, R10Reg) == Get(b, R10Reg);
    assert Get(a, R11Reg) == Get(b, R11Reg) && Get(a, R12Reg) == Get(b, R12Reg);
    assert Get(a, R13Reg) == Get(b, R13Reg) && Get(a, R14Reg) == Get(b, R14Reg);
    assert Get(a, R15Reg) == Get(b, R15Reg) && Get(a, EFlagsReg) == Get(b, EFlagsReg);
  }

  /** Supplying no fields changes nothing, and supplying every field replaces the
      whole record. */
  lemma MergedExtremes(ctx: ThreadContext, full: PartialContext, replacement: ThreadContext)
    requires forall r :: r in full && full[r] == Get(replacement, r)
    ensures Merged(ctx, map[]) == ctx
    ensures Merged(ctx, full) == replacement
  {
    forall r ensures Get(Merged(ctx, map[]), r) == Get(ctx, r) && Get(Merged(ctx, full), r) == Get(replacement, r) {
      MergedFields(ctx, map[], r);
      MergedFields(ctx, full, r);
    }
    ContextExtensionality(Merged(ctx, map[]), ctx);
    ContextExtensionality(Merged(ctx, full), replacement);
  }

  /** The entry point, stack pointer and flags (interrupts enabled) of a new thread. */
  const DefaultRip: int := 0x7ff700001000
  const DefaultRsp: int := 0xe0000
  const DefaultEFlags: int := 0x202

  const DefaultContext: ThreadContext :=
    ThreadContext(DefaultRip, 0, 0, 0, 0, 0, 0, 0, DefaultRsp, 0, 0, 0, 0, 0, 0, 0, 0, DefaultEFlags)

  /** A new thread's record: the entry point, the stack pointer and the flags
      are set, every other register is zero. */
  lemma DefaultContextRegisters(r: Register)
    ensures Get(DefaultContext, r) ==
      if r == RipReg then 0x7ff700001000
      else if r == RspReg then 0xe0000
      else if r == EFlagsReg then 0x202
      else 0
  {
  }

  // ---------------------------------------------------------------------------
  // The suspend counter as a state machine.

  datatype Schedule = Schedule(state: ThreadState, suspendCount: nat)

  /** `suspend`: one more suspension; a running thread starts waiting. */
  function Suspended(s: Schedule): (t: Schedule)
    ensures t.suspendCount == s.suspendCount + 1
    ensures t.state == (if s.state == Running then Waiting else s.state)
  {
    Schedule(if s.state == Running then Waiting else s.state, s.suspendCount + 1)
  }

  /** `resume`: one suspension fewer when there is one; the thread becomes
      ready when the last one goes. */
  function Resumed(s: Schedule): (t: Schedule)
    ensures s.suspendCount == 0 ==> t == s
    ensures s.suspendCount > 0 ==> t.suspendCount == s.suspendCount - 1
    ensures s.suspendCount == 1 ==> t.state == Ready
    ensures s.suspendCount > 1 ==> t.state == s.state
  {
    if s.suspendCount > 0 then
      var count := s.suspendCount - 1;
      Schedule(if count == 0 then Ready else s.state, count)
    else s
  }

  function SuspendedTimes(s: Schedule, n: nat): Schedule {
    if n == 0 then s else Suspended(SuspendedTimes(s, n - 1))
  }

  function ResumedTimes(s: Schedule, n: nat): Schedule {
    if n == 0 then s else Resumed(ResumedTimes(s, n - 1))
  }

  lemma {:induction false} SuspendedTimesCount(s: Schedule, n: nat)
    ensures SuspendedTimes(s, n).suspendCount == s.suspendCount + n
  {
    if n > 0 {
      SuspendedTimesCount(s, n - 1);
    }
  }

  /** Resuming `n` times removes `n` suspensions, never going below zero; once
      the counter reaches zero through a resume the thread is ready. */
  lemma {:induction false} ResumedTimesCount(s: Schedule, n: nat)
    ensures ResumedTimes(s, n).suspendCount == if n <= s.suspendCount then s.suspendCount - n else 0
    ensures 0 < s.suspendCount <= n ==> ResumedTimes(s, n).state == Ready
  {
    if n > 0 {
      ResumedTimesCount(s, n - 1);
    }
  }

  /** `n` suspensions followed by `n` resumptions restore the counter; a thread
      that was not suspended ends ready. */
  lemma SuspendThenResume(s: Schedule, n: nat)
    ensures ResumedTimes(SuspendedTimes(s, n), n).suspendCount == s.suspendCount
    ensures n > 0 && s.suspendCount == 0 ==> ResumedTimes(SuspendedTimes(s, n), n).state == Ready
  {
    SuspendedTimesCount(s, n);
    ResumedTimesCount(SuspendedTimes(s, n), n);
  }

  // ---------------------------------------------------------------------------

  class SimulatedThread {
    const id: int
    const ownerProcessId: int
    var state: ThreadState
    var suspendCount: nat
    var context: ThreadContext

    function Status(): Schedule
      reads this
    {
      Schedule(state, suspendCount)
    }

    /** A new thread: initialized, not suspended, with the default registers. */
    constructor(tid: int, ownerPid: int)
      ensures id == tid && ownerProcessId == ownerPid
      ensures state == Initialized && suspendCount == 0
      ensures context == DefaultContext
    {
      id := tid;
      ownerProcessId := ownerPid;
      state := Initialized;
      suspendCount := 0;
      context := DefaultContext;
    }

    /** `suspend`: returns the count before the increment. */
    method Suspend() returns (previous: nat)
      modifies this
      ensures previous == old(suspendCount)
      ensures Status() == Suspended(old(Status()))
      ensures context == old(context)
    {
      suspendCount := suspendCount + 1;
      if state == Running {
        state := Waiting;
      }
      return suspendCount - 1;
    }

    /** `resume`: returns the count after the decrement, or 0 untouched when the
        thread was not suspended. */
    method Resume() returns (count: nat)
      modifies this
      ensures count == suspendCount
      ensures Status() == Resumed(old(Status()))
      ensures context == old(context)
    {
      if suspendCount > 0 {
        suspendCount := suspendCount - 1;
        if suspendCount == 0 {
          state := Ready;
        }
      }
      return suspendCount;
    }

    /** `getContext`: a copy of the saved record (the flags are not consulted). */
    method GetContext(flags: int) returns (ctx: ThreadContext)
      ensures ctx == context
    {
      ctx := context;
    }

    /** `setContext`: the supplied fields overwrite the saved ones. */
    method SetContext(partial: PartialContext)
      modifies this
      ensures context == Merged(old(context), partial)
      ensures Status() == old(Status())
    {
      context := Merged(context, partial);
    }
  }

  /** On a fresh thread a suspend returns 0, the following resume returns 0, and
      the counter is back to 0 with the thread ready. */
  method SuspendResumeFresh(tid: int, pid: int) returns (suspended: nat, resumed: nat, t: SimulatedThread)
    ensures suspended == 0 && resumed == 0
    ensures t.suspendCount == 0 && t.state == Ready && t.id == tid && t.ownerProcessId == pid
  {
    t := new SimulatedThread(tid, pid);
    suspended := t.Suspend();
    resumed := t.Resume();
  }
}
