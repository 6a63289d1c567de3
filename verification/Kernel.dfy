/** The process table, scheduler, address-space switch and vidmap entry
    (process.c, paging.c, and the vidmap half of terminal.c) as a step machine.

    All interrupt gates disable interrupts, so kernel code runs atomically between two
    interruptible points: user mode, or the `sti; hlt; cli` wait loop of a blocking read.
    One step of the machine goes from one such point to the next.

    Nothing here fixes MAX_PROCESSES or NUM_TERMINALS: they are the lengths of `procs` and
    `terms`, and every theorem holds whenever 1 <= |terms| <= |procs|. */
module Kernel {
  import opened Events
  import opened Machine

  datatype Status = Run | Sleep | Sched

  /** What a kernel stack holds, oldest record first.  `Entry(who)` is the register context
      saved on entry from user mode, tagged with the process whose registers they are. */
  datatype Record = Entry(who: int) | Nested | InRun | InSwitch | InWait

  /** A saved ESP/EBP pair: a kernel stack and how many records of it lie under the pointer. */
  datatype StackPtr = StackPtr(stack: int, depth: nat)

  datatype Pcb = Pcb(
    pid: int,
    parentPid: int,
    parentSp: StackPtr,
    kernelSp: StackPtr,
    terminal: int,
    status: Status,
    vidmap: bool,
    lastAlarm: U32)

  datatype Term = Term(videoMem: VideoMem, vidmap: bool)

  datatype VidmapEntry = VidmapEntry(present: bool, target: VideoMem)

  datatype Cpu = User(who: int) | InKernel(stack: int) | Crashed

  datatype State = State(
    procs: seq<Pcb>,            // process_info
    home: seq<int>,             // process_data[i].pcb, as an index into process_info
    stacks: seq<seq<Record>>,   // process_data[i].kernel_stack
    cpu: Cpu,
    userFrame: int,             // 4MB frame number behind USER_PAGE_START
    esp0: int,                  // the kernel stack whose base is in tss.esp0
    vid: VidmapEntry,
    terms: seq<Term>,
    display: int,
    counter: U32,               // rtc_counter
    shellValid: bool)           // whether "shell" names a valid executable

  datatype Result = Result(s: State, out: Out)

  // ---------------------------------------------------------------- kernel stacks

  predicate SameSize(s: State, r: State) {
    |r.procs| == |s.procs| && |r.home| == |s.home| && |r.stacks| == |s.stacks| && |r.terms| == |s.terms|
  }

  function SetStack(s: State, i: int, recs: seq<Record>): (r: State)
    ensures SameSize(s, r)
  {
    if 0 <= i < |s.stacks| then s.(stacks := s.stacks[i := recs]) else s
  }

  function StackOf(s: State, i: int): seq<Record> {
    if 0 <= i < |s.stacks| then s.stacks[i] else []
  }

  function Push(s: State, i: int, rec: Record): (r: State)
    ensures SameSize(s, r)
  {
    SetStack(s, i, StackOf(s, i) + [rec])
  }

  /** An interrupt.  From user mode the processor loads ESP from tss.esp0, so whatever that
      stack held is overwritten; from a wait loop it keeps using the current stack. */
  function Enter(s: State): (r: State)
    ensures SameSize(s, r)
  {
    match s.cpu
    case User(w) => SetStack(s, s.esp0, [Entry(w)]).(cpu := InKernel(s.esp0))
    case InKernel(i) => Push(s, i, Nested)
    case Crashed => s
  }

  /** Return from interrupt: pops the innermost context. */
  function Leave(s: State): (r: State)
    ensures SameSize(s, r)
  {
    match s.cpu
    case InKernel(i) =>
      var recs := StackOf(s, i);
      if recs == [] then s.(cpu := Crashed)
      else
        var top := recs[|recs| - 1];
        (match top
         case Entry(w) => SetStack(s, i, []).(cpu := User(w))
         case Nested => SetStack(s, i, recs[..|recs| - 1])
         case _ => s.(cpu := Crashed))
    case _ => s
  }

  /** Loads ESP/EBP from `sp` and returns through the frame of kind `kind` that must be there. */
  function ReturnThrough(s: State, sp: StackPtr, kind: Record): (r: State)
    ensures SameSize(s, r)
  {
    var recs := StackOf(s, sp.stack);
    if 0 < sp.depth <= |recs| && recs[sp.depth - 1] == kind
    then SetStack(s, sp.stack, recs[..sp.depth - 1]).(cpu := InKernel(sp.stack))
    else s.(cpu := Crashed)
  }

  /** get_executing_pcb: the PCB found by masking ESP, as a slot number. */
  function Executing(s: State): int {
    match s.cpu
    case InKernel(i) => if 0 <= i < |s.home| then s.home[i] else -1
    case _ => -1
  }

  // ---------------------------------------------------------------- slot searches

  predicate Runnable(procs: seq<Pcb>, p: int) {
    0 <= p < |procs| && procs[p].pid >= 0 && procs[p].status != Sleep
  }

  /** The lowest free slot at or above `i`, or |procs|. */
  function FreeFrom(procs: seq<Pcb>, i: nat): (r: nat)
    requires i <= |procs|
    ensures i <= r <= |procs|
    ensures r < |procs| ==> procs[r].pid < 0
    ensures forall j :: i <= j < r ==> procs[j].pid >= 0
    decreases |procs| - i
  {
    if i == |procs| || procs[i].pid < 0 then i else FreeFrom(procs, i + 1)
  }

  /** The slot get_next_pcb picks when it starts looking `i` places after `cur`. */
  function NextFrom(procs: seq<Pcb>, cur: int, i: nat): int
    decreases |procs| - i
  {
    if i >= |procs| then cur
    else if Runnable(procs, (cur + i) % |procs|) then (cur + i) % |procs|
    else NextFrom(procs, cur, i + 1)
  }

  function Next(procs: seq<Pcb>, cur: int): int { NextFrom(procs, cur, 1) }

  // ---------------------------------------------------------------- process.c

  function UpdateVidmap(s: State, t: int, present: bool): (r: State)
    ensures SameSize(s, r)
  {
    if 0 <= t < |s.terms|
    then s.(vid := VidmapEntry(present, s.terms[t].videoMem),
            terms := s.terms[t := s.terms[t].(vidmap := present)])
    else s.(cpu := Crashed)
  }

  function SetContext(s: State, to: int): (r: State)
    requires 0 <= to < |s.procs|
    ensures SameSize(s, r)
  {
    UpdateVidmap(s, s.procs[to].terminal, s.procs[to].vidmap).(userFrame := s.procs[to].pid + 2, esp0 := s.procs[to].pid)
  }

  function CreateChild(s: State, slot: int, parentPid: int, terminal: int): (r: State)
    requires 0 <= slot < |s.procs| && |s.home| == |s.procs|
    ensures SameSize(s, r)
  {
    s.(procs := s.procs[slot := s.procs[slot].(pid := slot, parentPid := parentPid, terminal := terminal,
                                               status := Sched, vidmap := false, lastAlarm := s.counter)],
       home := s.home[slot := slot],
       userFrame := slot + 2)
  }

  /** process_run_impl: ESP is saved in the *child*, then the child starts in user mode. */
  function RunImpl(s: State, c: int, stack: int): (r: State)
    requires 0 <= c < |s.procs|
    ensures SameSize(s, r)
  {
    var s1 := SetContext(s.(procs := s.procs[c := s.procs[c].(status := Run)]), c);
    if s1.cpu.Crashed? then s1 else
      var s2 := Push(s1, stack, InRun);
      s2.(procs := s2.procs[c := s2.procs[c].(parentSp := StackPtr(stack, |StackOf(s2, stack)|))], cpu := User(c))
  }

  predicate Sized(s: State) {
    && |s.home| == |s.procs| == |s.stacks|
    && 0 < |s.terms| <= |s.procs|
  }

  /** Each `...In` is what the kernel does between entry and return. */
  function ExecuteIn(s1: State, valid: bool): (r: Result)
    requires Sized(s1)
    ensures Sized(r.s)
  {
    var p := Executing(s1);
    var c := FreeFrom(s1.procs, 0);
    if !(0 <= p < |s1.procs|) then Result(s1.(cpu := Crashed), Nothing)
    else if !valid || c == |s1.procs| then Result(Leave(s1), Failed)
    else
      var s2 := CreateChild(s1, c, s1.procs[p].pid, s1.procs[p].terminal);
      var s3 := s2.(procs := s2.procs[p := s2.procs[p].(status := Sleep)]);
      Result(RunImpl(s3, c, s1.cpu.stack), Spawned(c))
  }

  function DoExecute(s: State, valid: bool): (r: Result)
    requires Sized(s)
    ensures Sized(r.s)
  {
    ExecuteIn(Enter(s), valid)
  }

  function HaltIn(s1: State, status: int): (r: Result)
    requires Sized(s1)
    ensures Sized(r.s)
  {
    var c := Executing(s1);
    if !(0 <= c < |s1.procs|) then Result(s1.(cpu := Crashed), Nothing)
    else
      var parent := s1.procs[c].parentPid;
      // the assertions of get_pcb_by_pid
      if parent >= |s1.procs| || (parent >= 0 && s1.procs[parent].pid < 0) then Result(s1.(cpu := Crashed), Nothing)
      else
        var s2 := s1.(procs := s1.procs[c := s1.procs[c].(pid := -1)]);
        if parent < 0 then
          var slot := FreeFrom(s2.procs, 0);
          if !s1.shellValid || slot == |s2.procs| then Result(s2.(cpu := Crashed), Nothing)
          else Result(RunImpl(CreateChild(s2, slot, -1, s2.procs[c].terminal), slot, s1.cpu.stack), Respawned(slot))
        else
          var s3 := SetContext(s2.(procs := s2.procs[parent := s2.procs[parent].(status := Run)]), parent);
          Result(Leave(ReturnThrough(s3, s1.procs[c].parentSp, InRun)), Resumed(parent, status))
  }

  function DoHalt(s: State, status: int): (r: Result)
    requires Sized(s)
    ensures Sized(r.s)
  {
    HaltIn(Enter(s), status)
  }

  function TimerIn(s1: State): (r: Result)
    requires Sized(s1)
    ensures Sized(r.s)
  {
    var cur := Executing(s1);
    if !(0 <= cur < |s1.procs|) then Result(s1.(cpu := Crashed), Nothing)
    else
      var next := Next(s1.procs, s1.procs[cur].pid);
      if next == cur || !(0 <= next < |s1.procs|) then Result(Leave(s1), Nothing)
      else
        var stack := s1.cpu.stack;
        var s2 := Push(s1, stack, InSwitch);
        var s3 := s2.(procs := s2.procs[cur := s2.procs[cur].(kernelSp := StackPtr(stack, |StackOf(s2, stack)|))]);
        match s3.procs[next].status
        case Sched => Result(RunImpl(s3, next, stack), Nothing)
        case Run => Result(Leave(ReturnThrough(SetContext(s3, next), s3.procs[next].kernelSp, InSwitch)), Nothing)
        case Sleep => Result(Leave(s1.(procs := s3.procs)), Nothing)
  }

  function DoTimer(s: State): (r: Result)
    requires Sized(s)
    ensures Sized(r.s)
  {
    TimerIn(Enter(s))
  }

  function VidmapIn(s1: State, valid: bool): (r: Result)
    requires Sized(s1)
    ensures Sized(r.s)
  {
    var p := Executing(s1);
    if !(0 <= p < |s1.procs|) then Result(s1.(cpu := Crashed), Nothing)
    else if !valid then Result(Leave(s1), Failed)
    else
      var s2 := UpdateVidmap(s1, s1.procs[p].terminal, true);
      Result(Leave(s2.(procs := s2.procs[p := s2.procs[p].(vidmap := true)])), Nothing)
  }

  function DoVidmap(s: State, valid: bool): (r: Result)
    requires Sized(s)
    ensures Sized(r.s)
  {
    VidmapIn(Enter(s), valid)
  }

  /** set_display_terminal, as far as pointers and the vidmap entry go. */
  function SetDisplayIn(s1: State, n: int): (r: Result)
    requires Sized(s1)
    ensures Sized(r.s)
  {
    var p := Executing(s1);
    var prev := s1.display;
    if !(0 <= p < |s1.procs|) || !(0 <= n < |s1.terms|) || !(0 <= prev < |s1.terms|) then Result(s1.(cpu := Crashed), Nothing)
    else if n == prev then Result(Leave(s1), Nothing)
    else if s1.terms[prev].videoMem != Vga then Result(s1.(cpu := Crashed), Nothing)   // the ASSERT in terminal_swap_buffer
    else
      var exec := s1.procs[p].terminal;
      var s2 := s1.(display := n,
                    terms := s1.terms[prev := s1.terms[prev].(videoMem := Backing(prev))][n := s1.terms[n].(videoMem := Vga)]);
      if !(0 <= exec < |s2.terms|) then Result(s2.(cpu := Crashed), Nothing)
      else if s2.terms[exec].vidmap && (prev == exec || n == exec)
      then Result(Leave(s2.(vid := VidmapEntry(true, s2.terms[exec].videoMem))), Nothing)
      else Result(Leave(s2), Nothing)
  }

  function DoSetDisplay(s: State, n: int): (r: Result)
    requires Sized(s)
    ensures Sized(r.s)
  {
    SetDisplayIn(Enter(s), n)
  }

  /** process_update_clock's test, in 32-bit arithmetic. */
  predicate AlarmDue(b: Pcb, counter: U32) {
    b.pid >= 0 && Sub32(counter, b.lastAlarm) >= ALARM_TICKS
  }

  function Clocked(b: Pcb, counter: U32): Pcb {
    if AlarmDue(b, counter) then b.(lastAlarm := counter) else b
  }

  function ClockedAll(procs: seq<Pcb>, counter: U32): seq<Pcb> {
    seq(|procs|, i requires 0 <= i < |procs| => Clocked(procs[i], counter))
  }

  function TickIn(s1: State): (r: Result)
    requires Sized(s1)
    ensures Sized(r.s)
  {
    var counter := Add32(s1.counter, 1);
    Result(Leave(s1.(counter := counter, procs := ClockedAll(s1.procs, counter))),
           Alarms(set p | 0 <= p < |s1.procs| && AlarmDue(s1.procs[p], counter)))
  }

  function DoTick(s: State): (r: Result)
    requires Sized(s)
    ensures Sized(r.s)
  {
    TickIn(Enter(s))
  }

  function DoBlock(s: State): (r: Result)
    ensures Sized(s) ==> Sized(r.s)
  {
    var s1 := Enter(s);
    match s1.cpu
    case InKernel(i) => Result(Push(s1, i, InWait), Nothing)
    case _ => Result(s1, Nothing)
  }

  function DoWake(s: State): (r: Result)
    ensures Sized(s) ==> Sized(r.s)
  {
    match s.cpu
    case InKernel(i) =>
      var recs := StackOf(s, i);
      if recs != [] && recs[|recs| - 1] == InWait then Result(Leave(SetStack(s, i, recs[..|recs| - 1])), Nothing)
      else Result(s.(cpu := Crashed), Nothing)
    case _ => Result(s, Nothing)
  }

  /** Interrupts happen anywhere; system calls and exceptions only in user mode; a wake-up
      only in a wait loop. */
  predicate Enabled(s: State, e: Event) {
    match s.cpu
    case User(_) => !e.Wake? && (e.SetDisplay? ==> 0 <= e.term < |s.terms|)
    case InKernel(_) => e.Timer? || e.Tick? || e.Wake? || (e.SetDisplay? && 0 <= e.term < |s.terms|)
    case Crashed => false
  }

  function Step(s: State, e: Event): (r: Result)
    requires Sized(s)
    ensures Sized(r.s)
  {
    if !Enabled(s, e) then Result(s, Nothing) else
    match e
    case Execute(valid) => DoExecute(s, valid)
    case Halt(status) => DoHalt(s, status)
    case Timer => DoTimer(s)
    case Vidmap(valid) => DoVidmap(s, valid)
    case SetDisplay(n) => DoSetDisplay(s, n)
    case Tick => DoTick(s)
    case Block => DoBlock(s)
    case Wake => DoWake(s)
  }

  /** The state after a list of events, and what each of them reported. */
  function After(s: State, es: seq<Event>): (r: State)
    requires Sized(s)
    ensures Sized(r)
    decreases |es|
  {
    if es == [] then s else After(Step(s, es[0]).s, es[1..])
  }

  function Trace(s: State, es: seq<Event>): (r: seq<Out>)
    requires Sized(s)
    ensures |r| == |es|
    decreases |es|
  {
    if es == [] then [] else [Step(s, es[0]).out] + Trace(Step(s, es[0]).s, es[1..])
  }
}
