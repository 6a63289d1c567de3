/** process.c as code: one object holding process_info and the machine registers it
    manipulates, with the source's loops and in-place updates.  The ASSERTs of the source are
    `assert` statements here. */
module KernelCode {
  import opened Events
  import opened Kernel
  import opened Machine
  import opened Refinement
  import opened KernelTheorems
  import opened CallRefines
  import opened InterruptRefines
  import opened SwitchRefines
  import S = Sessions

  class Processes {
    const info: array<Pcb>              // process_info
    const terms: array<Term>            // terminal_states
    var home: seq<int>                  // process_data[i].pcb
    var stacks: seq<seq<Record>>        // process_data[i].kernel_stack
    var cpu: Cpu
    var userFrame: int
    var esp0: int
    var vid: VidmapEntry
    var display: int
    var counter: U32
    const shellValid: bool

    /** The session machine's view of this object. */
    ghost var os: S.Os

    ghost function View(): State
      reads this, info, terms
    {
      State(info[..], home, stacks, cpu, userFrame, esp0, vid, terms[..], display, counter, shellValid)
    }

    ghost predicate Valid()
      reads this, info, terms
    {
      Refines(View(), os)
    }

    /** process_init and terminal_init. */
    constructor (n: nat, terminals: nat, counter: U32)
      requires 0 < terminals <= n
      ensures View() == Initial(n, terminals, counter) && info.Length == n && terms.Length == terminals && shellValid
      ensures fresh(info) && fresh(terms)
    {
      info := new Pcb[n](_ => NO_PCB);
      terms := new Term[terminals](t => Term(if t == 0 then Vga else Backing(t), false));
      home := seq(n, _ => -1);
      stacks := seq(n, _ => []);
      cpu, userFrame, esp0, vid, display := InKernel(-1), 0, -1, VidmapEntry(false, Vga), 0;
      this.counter := counter;
      shellValid := true;
      new;
      assert info[..] == seq(n, _ => NO_PCB);
      assert terms[..] == seq(terminals, t => Term(if t == 0 then Vga else Backing(t), false));
    }

    // -------------------------------------------------------------- searches

    /** process_new_pcb. */
    method NewPcb() returns (slot: int)
      modifies info
      ensures slot < 0 <==> FreeFrom(old(info[..]), 0) == info.Length
      ensures slot < 0 ==> info[..] == old(info[..])
      ensures 0 <= slot ==> slot == FreeFrom(old(info[..]), 0) < info.Length
                            && info[..] == old(info[..])[slot := old(info[slot]).(pid := slot)]
    {
      var i := 0;
      while i < info.Length
        invariant 0 <= i <= info.Length
        invariant info[..] == old(info[..])
        invariant FreeFrom(info[..], 0) == FreeFrom(info[..], i)
      {
        if info[i].pid < 0 {
          info[i] := info[i].(pid := i);
          return i;
        }
        i := i + 1;
      }
      return -1;
    }

    /** get_next_pcb. */
    method GetNextPcb(curr: int) returns (next: int)
      requires 0 <= curr < info.Length && info[curr].pid == curr
      ensures next == Next(info[..], curr)
    {
      var i := 1;
      while i < info.Length
        invariant 1 <= i
        invariant Next(info[..], curr) == NextFrom(info[..], curr, i)
      {
        var pid := (info[curr].pid + i) % info.Length;
        if info[pid].pid >= 0 && info[pid].status != Sleep {
          return pid;
        }
        i := i + 1;
      }
      return curr;
    }

    /** get_pcb_by_terminal: finds the terminal's foreground program. */
    method GetPcbByTerminal(t: int) returns (p: int)
      requires Valid() && 0 <= t < terms.Length
      ensures 0 <= p < info.Length && p == S.Top(os.calls, t)
    {
      ghost var top := S.Top(os.calls, t);
      assert Linked(View(), os, t, |os.calls[t]| - 1);
      p := 0;
      while p < info.Length
        invariant 0 <= p <= top
      {
        if info[p].pid >= 0 && info[p].terminal == t && info[p].status != Sleep {
          RunnableIsTop(View(), os, p);
          ghost var u :| 0 <= u < |os.calls| && S.Top(os.calls, u) == p;
          assert Linked(View(), os, u, |os.calls[u]| - 1);
          return;
        }
        p := p + 1;
      }
    }
  
    // -------------------------------------------------------------- entering and leaving the kernel

    method EnterKernel()
      modifies this`stacks, this`cpu
      ensures View() == Enter(old(View()))
    {
      match cpu
      case User(w) =>
        if 0 <= esp0 < |stacks| { stacks := stacks[esp0 := [Entry(w)]]; }
        cpu := InKernel(esp0);
      case InKernel(i) =>
        if 0 <= i < |stacks| { stacks := stacks[i := stacks[i] + [Nested]]; }
      case Crashed =>
    }

    method LeaveKernel()
      requires cpu.InKernel? && 0 <= cpu.stack < |stacks|
      requires var recs := stacks[cpu.stack]; recs != [] && (recs[|recs| - 1].Entry? || recs[|recs| - 1] == Nested)
      modifies this`stacks, this`cpu
      ensures View() == Leave(old(View()))
    {
      var i := cpu.stack;
      var recs := stacks[i];
      match recs[|recs| - 1]
      case Entry(w) => stacks := stacks[i := []]; cpu := User(w);
      case Nested => stacks := stacks[i := recs[..|recs| - 1]];
    }

    /** Loads ESP and EBP and executes leave and ret. */
    method ReturnTo(sp: StackPtr, kind: Record)
      requires 0 <= sp.stack < |stacks| && 0 < sp.depth <= |stacks[sp.stack]|
      requires stacks[sp.stack][sp.depth - 1] == kind
      modifies this`stacks, this`cpu
      ensures View() == ReturnThrough(old(View()), sp, kind)
      ensures cpu == InKernel(sp.stack) && stacks == old(stacks)[sp.stack := old(stacks)[sp.stack][..sp.depth - 1]]
    {
      stacks := stacks[sp.stack := stacks[sp.stack][..sp.depth - 1]];
      cpu := InKernel(sp.stack);
    }

    // -------------------------------------------------------------- contexts

    /** terminal_update_vidmap and paging_update_vidmap_page. */
    method UpdateVidmap(t: int, present: bool)
      requires 0 <= t < terms.Length
      modifies this`vid, terms
      ensures View() == Kernel.UpdateVidmap(old(View()), t, present)
    {
      vid := VidmapEntry(present, terms[t].videoMem);
      terms[t] := terms[t].(vidmap := present);
    }

    /** process_set_context. */
    method SetContext(to: int)
      requires 0 <= to < info.Length && 0 <= info[to].terminal < terms.Length
      modifies this`userFrame, this`esp0, this`vid, terms
      ensures View() == Kernel.SetContext(old(View()), to)
    {
      userFrame := info[to].pid + 2;
      UpdateVidmap(info[to].terminal, info[to].vidmap);
      esp0 := info[to].pid;
    }

    /** process_run_impl, up to the jump into user mode. */
    method RunImpl(c: int)
      requires 0 <= c < info.Length && 0 <= info[c].terminal < terms.Length
      requires cpu.InKernel? && 0 <= cpu.stack < |stacks|
      modifies this, info, terms
      ensures View() == Kernel.RunImpl(old(View()), c, old(cpu).stack)
      ensures os == old(os)
    {
      var stack := cpu.stack;
      info[c] := info[c].(status := Run);
      SetContext(c);
      stacks := stacks[stack := stacks[stack] + [InRun]];
      info[c] := info[c].(parentSp := StackPtr(stack, |stacks[stack]|));
      cpu := User(c);
    }

    /** process_create_child, for a command that has been found valid; -1 if the table is full. */
    method CreateChild(parentPid: int, terminal: int) returns (c: int)
      requires |home| == info.Length
      modifies this, info
      ensures os == old(os)
      ensures c < 0 ==> View() == old(View()) && FreeFrom(old(info[..]), 0) == info.Length
      ensures c >= 0 ==> c == FreeFrom(old(info[..]), 0) < info.Length && View() == Kernel.CreateChild(old(View()), c, parentPid, terminal)
    {
      c := NewPcb();
      if c < 0 { return; }
      info[c] := info[c].(parentPid := parentPid, terminal := terminal, status := Sched, vidmap := false, lastAlarm := counter);
      home := home[c := c];
      userFrame := c + 2;
    }
  
    // -------------------------------------------------------------- system calls and interrupts

    /** The shape of the kernel stack just after entry. */
    lemma Entered(s: State)
      requires Refines(s, os) && View() == Enter(s)
      ensures var c := S.Current(os);
              && cpu == InKernel(c) && 0 <= c < |stacks| && c < info.Length && |home| == info.Length == |stacks|
              && home[c] == c && info[c].pid == c && info[c].terminal == os.active < terms.Length
              && stacks[c] == (if c in os.waiting then [Entry(c), InWait, Nested] else [Entry(c)])
    {
      EnterFacts(s, os);
      CurrentFacts(s, os);
    }

    /** execute(): process_execute_impl with the executing process as parent. */
    method Execute(valid: bool) returns (out: Out)
      requires Valid() && cpu.User?
      modifies this, info, terms
      ensures Valid()
      ensures S.Step(old(os), Event.Execute(valid)) == S.OsResult(os, out)
    {
      ghost var s := View();
      EnterKernel();
      Entered(s);
      out := ExecuteImpl(valid);
      StepRefines(s, os, Event.Execute(valid));
      os := S.Step(os, Event.Execute(valid)).a;
    }

    method ExecuteImpl(valid: bool) returns (out: Out)
      requires cpu.InKernel? && 0 <= cpu.stack < |stacks| && |home| == info.Length == |stacks| && 0 < terms.Length <= info.Length
      requires var c := cpu.stack; home[c] == c && 0 <= info[c].terminal < terms.Length && stacks[c] == [Entry(c)]
      modifies this, info, terms
      ensures os == old(os)
      ensures Result(View(), out) == ExecuteIn(old(View()), valid)
    {
      var p := home[cpu.stack];
      var c := -1;
      if valid {
        c := CreateChild(info[p].pid, info[p].terminal);
      }
      if c < 0 {
        LeaveKernel();
        return Failed;
      }
      info[p] := info[p].(status := Sleep);
      RunImpl(c);
      return Spawned(c);
    }
  
    /** halt(), and the death of a process by a signal: process_halt_impl. */
    method Halt(status: int) returns (out: Out)
      requires Valid() && cpu.User?
      modifies this, info, terms
      ensures Valid()
      ensures S.Step(old(os), Event.Halt(status)) == S.OsResult(os, out)
    {
      ghost var s := View();
      EnterKernel();
      Entered(s);
      HaltReady(s);
      out := HaltImpl(status);
      Halted(s, status, out);
      os := S.Step(os, Event.Halt(status)).a;
    }

    lemma Halted(s: State, status: int, out: Out)
      requires Refines(s, os) && s.cpu.User? && Result(View(), out) == DoHalt(s, status)
      ensures Refines(View(), S.Step(os, Event.Halt(status)).a) && out == S.Step(os, Event.Halt(status)).out
    {
      StepRefines(s, os, Event.Halt(status));
    }

    /** What process_halt_impl relies on: the parent is alive and its frame in process_run_impl
        is where the child remembers it; or the halting root is the lowest free slot. */
    ghost predicate HaltOk()
      reads this, info, terms
    {
      && cpu.InKernel? && 0 <= cpu.stack < |stacks| && |home| == info.Length == |stacks| && 0 < terms.Length <= info.Length
      && home[cpu.stack] == cpu.stack && shellValid
      && var c := cpu.stack; var q := info[c].parentPid;
         if q < 0 then
           && 0 <= info[c].terminal < terms.Length
           && FreeFrom(info[..][c := info[c].(pid := -1)], 0) == c
         else
           && q < info.Length && q != c && info[q].pid == q && 0 <= info[q].terminal < terms.Length
           && info[c].parentSp == StackPtr(q, 2) && 2 <= |stacks[q]| && stacks[q][0] == Entry(q) && stacks[q][1] == InRun
    }

    lemma HaltReady(s: State)
      requires Refines(s, os) && View() == Enter(s) && s.cpu.User?
      ensures HaltOk()
    {
      EnterFacts(s, os);
      CurrentFacts(s, os);
      var c := S.Current(os);
      if |os.calls[os.active]| > 1 {
        ParentFacts(s, os);
        var q := s.procs[c].parentPid;
        assert s.stacks[q][..2][0] == Entry(q) && s.stacks[q][..2][1] == InRun;
      } else {
        assert Linked(s, os, os.active, 0);
        RootIsLowest(s, os, c);
      }
    }

    method HaltImpl(status: int) returns (out: Out)
      requires HaltOk()
      modifies this, info, terms
      ensures os == old(os)
      ensures Result(View(), out) == HaltIn(old(View()), status)
    {
      var child := home[cpu.stack];
      var parent := info[child].parentPid;
      // get_pcb_by_pid
      assert parent >= 0 ==> parent < info.Length && info[parent].pid >= 0;

      info[child] := info[child].(pid := -1);

      if parent < 0 {
        var c := CreateChild(-1, info[child].terminal);
        assert c >= 0;    // the shell comes back, so the ASSERT(0) after the call is not reached
        RunImpl(c);
        return Respawned(c);
      }

      ResumeParent(child, parent);
      return Resumed(parent, status);
    }

    /** Returns through the parent's process_run_impl frame, and from its execute(). */
    method ResumeParent(child: int, parent: int)
      requires 0 <= child < info.Length && 0 <= parent < info.Length && child != parent && 0 <= info[parent].terminal < terms.Length
      requires var sp := info[child].parentSp;
               && 0 <= sp.stack < |stacks| && 2 <= sp.depth <= |stacks[sp.stack]|
               && stacks[sp.stack][sp.depth - 1] == InRun && stacks[sp.stack][sp.depth - 2].Entry?
      modifies this, info, terms
      ensures os == old(os)
      ensures var s := old(View());
              View() == Leave(ReturnThrough(Kernel.SetContext(s.(procs := s.procs[parent := s.procs[parent].(status := Run)]), parent),
                                            old(info[child].parentSp), InRun))
    {
      info[parent] := info[parent].(status := Run);
      SetContext(parent);
      ReturnTo(info[child].parentSp, InRun);
      LeaveKernel();
    }

    /** The PIT interrupt: process_switch_impl. */
    method Switch()
      requires Valid()
      modifies this, info, terms
      ensures Valid()
      ensures os == S.Step(old(os), Timer).a
    {
      ghost var s := View();
      HandlePit();
      TimerDone(s);
      os := S.Step(os, Timer).a;
    }

    /** The whole interrupt, as the kernel state sees it. */
    method HandlePit()
      requires Valid()
      modifies this, info, terms
      ensures os == old(os)
      ensures Result(View(), Nothing) == DoTimer(old(View()))
    {
      ghost var s := View();
      EnterKernel();
      SwitchReady(s);
      SwitchImpl();
    }

    lemma TimerDone(s: State)
      requires Refines(s, os) && Result(View(), Nothing) == DoTimer(s)
      ensures Refines(View(), S.Step(os, Timer).a)
    {
      TimerRefines(s, os);
    }

    /** What process_switch_impl relies on: the next process is inside process_switch_impl too,
        on its own stack, unless it is a shell that has not run yet. */
    ghost predicate SwitchOk()
      reads this, info, terms
    {
      && cpu.InKernel? && 0 <= cpu.stack < |stacks| && |home| == info.Length == |stacks| && 0 < terms.Length <= info.Length
      && var c := cpu.stack;
         && home[c] == c && info[c].pid == c
         && (stacks[c] == [Entry(c), InWait, Nested] || stacks[c] == [Entry(c)])
         && var q := Next(info[..], c);
            q != c ==>
              && 0 <= q < info.Length && info[q].pid == q && 0 <= info[q].terminal < terms.Length
              && info[q].status != Sleep
              && (info[q].status == Run ==>
                    && var sp := info[q].kernelSp;
                       && sp.stack == q && 2 <= sp.depth <= |stacks[q]|
                       && stacks[q][sp.depth - 1] == InSwitch
                       && (stacks[q][sp.depth - 2].Entry? || stacks[q][sp.depth - 2] == Nested))
    }

    lemma SwitchReady(s: State)
      requires Refines(s, os) && View() == Enter(s)
      ensures SwitchOk()
    {
      EnterFacts(s, os);
      CurrentFacts(s, os);
      NextMatches(s, os);
      var n := S.NextTerminal(os);
      if n != os.active {
        NextFacts(s, os, n);
        var q := S.Top(os.calls, n);
        if s.procs[q].status == Run {
          var d := s.procs[q].kernelSp.depth;
          var recs := s.stacks[q][..d];
          assert recs[d - 1] == s.stacks[q][d - 1] && recs[d - 2] == s.stacks[q][d - 2];
        }
      }
    }

    method SwitchImpl()
      requires SwitchOk()
      modifies this, info, terms
      ensures os == old(os)
      ensures Result(View(), Nothing) == TimerIn(old(View()))
    {
      var stack := cpu.stack;
      var curr := home[stack];
      var next := GetNextPcb(curr);
      if curr == next {
        LeaveKernel();
        return;
      }
      stacks := stacks[stack := stacks[stack] + [InSwitch]];
      info[curr] := info[curr].(kernelSp := StackPtr(stack, |stacks[stack]|));
      if info[next].status == Sched {
        RunImpl(next);
      } else {
        assert info[next].status == Run;
        ResumeSwitched(next);
      }
    }

    /** Returns into another process's process_switch_impl frame, and from its interrupt. */
    method ResumeSwitched(next: int)
      requires 0 <= next < info.Length && 0 <= info[next].terminal < terms.Length
      requires var sp := info[next].kernelSp;
               && 0 <= sp.stack < |stacks| && 2 <= sp.depth <= |stacks[sp.stack]|
               && stacks[sp.stack][sp.depth - 1] == InSwitch
               && (stacks[sp.stack][sp.depth - 2].Entry? || stacks[sp.stack][sp.depth - 2] == Nested)
      modifies this`userFrame, this`esp0, this`vid, this`stacks, this`cpu, terms
      ensures View() == Leave(ReturnThrough(Kernel.SetContext(old(View()), next), old(info[next].kernelSp), InSwitch))
    {
      SetContext(next);
      ReturnTo(info[next].kernelSp, InSwitch);
      LeaveKernel();
    }

    /** vidmap(). */
    method Vidmap(valid: bool) returns (out: Out)
      requires Valid() && cpu.User?
      modifies this, info, terms
      ensures Valid()
      ensures S.Step(old(os), Event.Vidmap(valid)) == S.OsResult(os, out)
    {
      ghost var s := View();
      EnterKernel();
      Entered(s);
      out := VidmapImpl(valid);
      VidmapRefines(s, os, valid);
      os := S.Step(os, Event.Vidmap(valid)).a;
    }

    method VidmapImpl(valid: bool) returns (out: Out)
      requires cpu.InKernel? && 0 <= cpu.stack < |stacks| && |home| == info.Length == |stacks| && 0 < terms.Length <= info.Length
      requires var c := cpu.stack; home[c] == c && 0 <= info[c].terminal < terms.Length && stacks[c] == [Entry(c)]
      modifies this`vid, this`stacks, this`cpu, info, terms
      ensures Result(View(), out) == VidmapIn(old(View()), valid)
    {
      var p := home[cpu.stack];
      if valid {
        UpdateVidmap(info[p].terminal, true);
        info[p] := info[p].(vidmap := true);
        out := Nothing;
      } else {
        out := Failed;
      }
      LeaveKernel();
    }

    /** set_display_terminal, without the screen contents. */
    method SetDisplay(n: int)
      requires Valid() && 0 <= n < terms.Length
      modifies this, terms
      ensures Valid()
      ensures os == S.Step(old(os), Event.SetDisplay(n)).a
    {
      ghost var s := View();
      HandleDisplay(n);
      Shown(s, n);
      os := S.Step(os, Event.SetDisplay(n)).a;
    }

    /** The keyboard interrupt, as the kernel state sees it. */
    method HandleDisplay(n: int)
      requires Valid() && 0 <= n < terms.Length
      modifies this, terms
      ensures os == old(os)
      ensures Result(View(), Nothing) == DoSetDisplay(old(View()), n)
    {
      ghost var s := View();
      EnterKernel();
      Entered(s);
      assert terms[display].videoMem == Vga;    // the ASSERT in terminal_swap_buffer
      SetDisplayImpl(n);
    }

    lemma Shown(s: State, n: int)
      requires Refines(s, os) && 0 <= n < |s.terms| && Result(View(), Nothing) == DoSetDisplay(s, n)
      ensures Refines(View(), S.Step(os, Event.SetDisplay(n)).a)
    {
      DisplayRefines(s, os, n);
    }

    method SetDisplayImpl(n: int)
      requires cpu.InKernel? && 0 <= cpu.stack < |stacks| && |home| == info.Length == |stacks| && 0 < terms.Length <= info.Length
      requires var recs := stacks[cpu.stack]; recs != [] && (recs[|recs| - 1].Entry? || recs[|recs| - 1] == Nested)
      requires home[cpu.stack] == cpu.stack && 0 <= info[cpu.stack].terminal < terms.Length
      requires 0 <= n < terms.Length && 0 <= display < terms.Length && terms[display].videoMem == Vga
      modifies this`display, this`vid, this`stacks, this`cpu, terms
      ensures Result(View(), Nothing) == SetDisplayIn(old(View()), n)
    {
      var prev := display;
      if n != prev {
        display := n;
        terms[prev] := terms[prev].(videoMem := Backing(prev));
        terms[n] := terms[n].(videoMem := Vga);
        var exec := info[home[cpu.stack]].terminal;
        if terms[exec].vidmap && (prev == exec || n == exec) {
          vid := VidmapEntry(true, terms[exec].videoMem);
        }
      }
      LeaveKernel();
    }

    /** The RTC interrupt: rtc_handle_irq and process_update_clock. */
    method HandleRtc() returns (out: Out)
      requires Valid()
      modifies this, info
      ensures Valid()
      ensures S.Step(old(os), Tick) == S.OsResult(os, out)
    {
      ghost var s := View();
      EnterKernel();
      Entered(s);
      out := RtcImpl();
      TickDone(s, out);
      os := S.Step(os, Tick).a;
    }

    lemma TickDone(s: State, out: Out)
      requires Refines(s, os) && Result(View(), out) == DoTick(s)
      ensures Refines(View(), S.Step(os, Tick).a) && out == S.Step(os, Tick).out
    {
      StepRefines(s, os, Tick);
    }

    method RtcImpl() returns (out: Out)
      requires cpu.InKernel? && 0 <= cpu.stack < |stacks| && |home| == info.Length == |stacks| && 0 < terms.Length <= info.Length
      requires var recs := stacks[cpu.stack]; recs != [] && (recs[|recs| - 1].Entry? || recs[|recs| - 1] == Nested)
      modifies this`counter, this`stacks, this`cpu, info
      ensures Result(View(), out) == TickIn(old(View()))
    {
      counter := Add32(counter, 1);
      var alarms := UpdateClock(counter);
      LeaveKernel();
      return Alarms(alarms);
    }

    method UpdateClock(rtcCounter: U32) returns (alarms: set<int>)
      modifies info
      ensures info[..] == ClockedAll(old(info[..]), rtcCounter)
      ensures alarms == set p | 0 <= p < info.Length && AlarmDue(old(info[..])[p], rtcCounter)
    {
      alarms := {};
      var i := 0;
      while i < info.Length
        invariant 0 <= i <= info.Length
        invariant forall j :: 0 <= j < i ==> info[j] == Clocked(old(info[..])[j], rtcCounter)
        invariant forall j :: i <= j < info.Length ==> info[j] == old(info[..])[j]
        invariant forall p :: p in alarms <==> 0 <= p < i && AlarmDue(old(info[..])[p], rtcCounter)
      {
        if info[i].pid >= 0 {
          var elapsed := Sub32(rtcCounter, info[i].lastAlarm);
          if elapsed >= ALARM_TICKS {
            info[i] := info[i].(lastAlarm := rtcCounter);
            alarms := alarms + {i};
          }
        }
        i := i + 1;
      }
    }
  
    // -------------------------------------------------------------- boot

    /** process_start_shell. */
    method StartShells()
      requires 0 < terms.Length <= info.Length && shellValid
      requires View() == Initial(info.Length, terms.Length, counter)
      modifies this, info, terms
      ensures Valid()
      ensures os == BootedOs(info.Length, terms.Length)
    {
      ghost var s := View();
      CreateOthers();
      BootForm(info.Length, terms.Length, counter);
      var c := CreateChild(-1, 0);
      StartFirst(c);
      assert View() == Boot(info.Length, terms.Length, s.counter);
      os := BootedOs(info.Length, terms.Length);
      BootRefines(info.Length, terms.Length, s.counter);
    }

    /** The loop of process_start_shell: a child for every terminal but the first. */
    method CreateOthers()
      requires 0 < terms.Length <= info.Length && shellValid
      requires View() == Initial(info.Length, terms.Length, counter)
      modifies this, info
      ensures Sized(View()) && View() == ShellsFrom(old(View()), 1)
      ensures cpu == InKernel(-1) && stacks == old(stacks) && counter == old(counter) && os == old(os)
    {
      ghost var s := View();
      var i := 1;
      while i < terms.Length
        invariant 1 <= i <= terms.Length
        invariant Sized(View()) && View().terms == s.terms
        invariant ShellsFrom(View(), i) == ShellsFrom(s, 1)
        invariant cpu == InKernel(-1) && stacks == s.stacks && counter == s.counter && os == old(os)
      {
        var _ := CreateChild(-1, i);
        i := i + 1;
      }
    }

    /** process_run_impl on the boot stack. */
    method StartFirst(c: int)
      requires 0 <= c < info.Length && 0 <= info[c].terminal < terms.Length && cpu == InKernel(-1)
      modifies this, info, terms
      ensures View() == Kernel.RunImpl(old(View()), c, -1)
    {
      info[c] := info[c].(status := Run);
      SetContext(c);
      info[c] := info[c].(parentSp := StackPtr(-1, 0));
      cpu := User(c);
    }
  }
}
