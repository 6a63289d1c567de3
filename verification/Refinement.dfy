/** The kernel machine refines the session machine: the flat process table is one call stack
    per terminal, every saved stack pointer is good, the address space, TSS and vidmap entry
    belong to the executing process, and alarms are on schedule. */
module Refinement {
  import opened Events
  import opened Kernel
  import opened Machine
  import S = Sessions

  /** The process whose code runs, or waits in the kernel, at an interruptible point. */
  function Running(s: State): int {
    match s.cpu
    case User(w) => w
    case InKernel(i) => i
    case Crashed => -1
  }

  ghost predicate Shape(s: State, a: S.Os) {
    && S.WellFormed(a)
    && Sized(s)
    && a.slots == |s.procs|
    && |a.calls| == |s.terms|
    && a.display == s.display
    && s.shellValid
  }

  /** calls[t][i] is a live process of terminal t whose parent is the entry below it, asleep
      exactly when there is an entry above it. */
  ghost predicate Linked(s: State, a: S.Os, t: int, i: int)
    requires 0 <= t < |a.calls| && 0 <= i < |a.calls[t]|
  {
    var p := a.calls[t][i];
    && 0 <= p < |s.procs|
    && var b := s.procs[p];
       && b.pid == p
       && b.terminal == t
       && b.parentPid == (if i == 0 then -1 else a.calls[t][i - 1])
       && (b.status == Sleep <==> i + 1 < |a.calls[t]|)
       && (b.status == Sched ==> i == 0)
  }

  ghost predicate Chains(s: State, a: S.Os) {
    forall t, i :: 0 <= t < |a.calls| && 0 <= i < |a.calls[t]| ==> Linked(s, a, t, i)
  }

  /** Every occupied slot is on the call stack of its terminal. */
  ghost predicate Covered(s: State, a: S.Os) {
    forall p :: 0 <= p < |s.procs| && s.procs[p].pid >= 0 ==>
      && 0 <= s.procs[p].terminal < |a.calls|
      && p in a.calls[s.procs[p].terminal]
  }

  /** A process inside process_switch_impl: interrupted in a wait loop, or in user mode. */
  predicate SwitchedOut(recs: seq<Record>, p: int, waiting: bool) {
    recs == if waiting then [Entry(p), InWait, Nested, InSwitch] else [Entry(p), InSwitch]
  }

  /** The saved stack pointers of slot p are good while `running` is on the processor. */
  ghost predicate FramesOf(s: State, a: S.Os, p: int, running: int)
    requires 0 <= p < |s.procs| && |s.stacks| == |s.procs|
  {
    var b := s.procs[p];
    && (b.status == Run && p != running ==>
          && b.kernelSp.stack == p
          && b.kernelSp.depth <= |s.stacks[p]|
          && SwitchedOut(s.stacks[p][..b.kernelSp.depth], p, p in a.waiting))
    && (0 <= b.parentPid < |s.procs| ==>
          && b.parentSp == StackPtr(b.parentPid, 2)
          && 2 <= |s.stacks[b.parentPid]|
          && s.stacks[b.parentPid][..2] == [Entry(b.parentPid), InRun])
  }

  ghost predicate Frames(s: State, a: S.Os)
    requires |s.stacks| == |s.procs|
  {
    && (forall p :: 0 <= p < |s.procs| && s.procs[p].pid >= 0 ==> FramesOf(s, a, p, Running(s)))
    && (forall p :: p in a.waiting ==> 0 <= p < |s.procs| && s.procs[p].pid >= 0 && s.procs[p].status == Run)
  }

  /** User page, TSS and the PCB found by masking ESP all name the current process. */
  ghost predicate Context(s: State, a: S.Os)
    requires Shape(s, a)
  {
    var c := S.Current(a);
    && Running(s) == c
    && s.procs[c].pid == c
    && s.procs[c].status == Run
    && s.userFrame == c + 2
    && s.esp0 == c
    && (if c in a.waiting then s.cpu == InKernel(c) && s.stacks[c] == [Entry(c), InWait] else s.cpu == User(c))
    && (forall p :: 0 <= p < |s.procs| && s.procs[p].pid >= 0 ==> s.home[p] == p)
  }

  /** Every screen pointer and vidmap flag, and the one vidmap page-table entry. */
  ghost predicate Video(s: State, a: S.Os)
    requires Shape(s, a)
  {
    && (forall t :: 0 <= t < |s.terms| ==>
          s.terms[t] == Term(if t == s.display then Vga else Backing(t), S.Top(a.calls, t) in a.mapped))
    && (forall p :: 0 <= p < |s.procs| && s.procs[p].pid >= 0 ==> s.procs[p].vidmap == (p in a.mapped))
    && s.vid.present == S.Mapped(a).0
    && (s.vid.present ==> s.vid.target == S.Mapped(a).1)
  }

  /** The time since the last alarm of a process created at tick `born`, as the 32-bit counter
      shows it, is the part of a period that has passed. */
  ghost predicate ClockOf(b: Pcb, counter: U32, born: nat, ticks: nat) {
    born <= ticks && Sub32(counter, b.lastAlarm) == (ticks - born) % ALARM_TICKS
  }

  ghost predicate Clock(s: State, a: S.Os)
    requires Shape(s, a)
  {
    forall p :: 0 <= p < |s.procs| && s.procs[p].pid >= 0 ==> ClockOf(s.procs[p], s.counter, a.born[p], a.ticks)
  }

  ghost predicate Refines(s: State, a: S.Os) {
    && Shape(s, a)
    && Chains(s, a)
    && Covered(s, a)
    && Frames(s, a)
    && Context(s, a)
    && Video(s, a)
    && Clock(s, a)
  }

  // ---------------------------------------------------------------- facts about one state

  lemma CurrentFacts(s: State, a: S.Os)
    requires Refines(s, a)
    ensures var c := S.Current(a);
            0 <= c < |s.procs| && s.procs[c].terminal == a.active && c in a.calls[a.active]
  {
    assert Linked(s, a, a.active, |a.calls[a.active]| - 1);
  }

  /** No live process has the foreground program of a terminal as its parent. */
  lemma TopIsChildless(s: State, a: S.Os, n: int, p: int)
    requires Refines(s, a)
    requires 0 <= n < |a.calls|
    requires 0 <= p < |s.procs| && s.procs[p].pid >= 0
    ensures s.procs[p].parentPid != S.Top(a.calls, n)
  {
    var t := s.procs[p].terminal;
    var i :| 0 <= i < |a.calls[t]| && a.calls[t][i] == p;
    assert Linked(s, a, t, i);
    assert Linked(s, a, n, |a.calls[n]| - 1);
    if i > 0 { assert Linked(s, a, t, i - 1); }
  }

  /** A live process other than the current one is awake exactly when it is the foreground
      program of another terminal. */
  lemma RunnableIsTop(s: State, a: S.Os, p: int)
    requires Refines(s, a)
    requires 0 <= p < |s.procs|
    ensures Runnable(s.procs, p) <==> exists t :: 0 <= t < |a.calls| && S.Top(a.calls, t) == p
  {
    if Runnable(s.procs, p) {
      var t := s.procs[p].terminal;
      var i :| 0 <= i < |a.calls[t]| && a.calls[t][i] == p;
      assert Linked(s, a, t, i);
      assert S.Top(a.calls, t) == p;
    }
    if t :| 0 <= t < |a.calls| && S.Top(a.calls, t) == p {
      assert Linked(s, a, t, |a.calls[t]| - 1);
    }
  }

  lemma LiveIsOccupied(s: State, a: S.Os, p: int)
    requires Refines(s, a)
    requires 0 <= p < |s.procs|
    ensures s.procs[p].pid >= 0 <==> S.Occupied(a.calls, p)
    ensures s.procs[p].pid >= 0 ==> s.procs[p].pid == p
  {
    if s.procs[p].pid >= 0 {
      var t := s.procs[p].terminal;
      var i :| 0 <= i < |a.calls[t]| && a.calls[t][i] == p;
      assert Linked(s, a, t, i);
    }
    if t :| 0 <= t < |a.calls| && p in a.calls[t] {
      var i :| 0 <= i < |a.calls[t]| && a.calls[t][i] == p;
      assert Linked(s, a, t, i);
    }
  }

  lemma SameFreeSlot(s: State, a: S.Os, i: nat)
    requires Refines(s, a) && i <= |s.procs|
    ensures FreeFrom(s.procs, i) == S.FreeSlot(a, i)
    decreases |s.procs| - i
  {
    if i < |s.procs| {
      LiveIsOccupied(s, a, i);
      SameFreeSlot(s, a, i + 1);
    }
  }

  /** The kernel's view just after an interrupt. */
  lemma EnterFacts(s: State, a: S.Os)
    requires Refines(s, a)
    ensures var c := S.Current(a); var s1 := Enter(s);
            && s1 == s.(cpu := InKernel(c), stacks := s.stacks[c := s1.stacks[c]])
            && s1.stacks[c] == (if c in a.waiting then [Entry(c), InWait, Nested] else [Entry(c)])
            && Executing(s1) == c
  {
    CurrentFacts(s, a);
  }
}
