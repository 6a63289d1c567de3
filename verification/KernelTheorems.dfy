/** What holds of every run of the kernel machine. */
module KernelTheorems {
  import opened Events
  import opened Kernel
  import opened Machine
  import opened Refinement
  import opened InterruptRefines
  import opened SwitchRefines
  import opened CallRefines
  import S = Sessions

  lemma EnabledAgree(s: State, a: S.Os, e: Event)
    requires Refines(s, a)
    ensures Enabled(s, e) <==> S.Enabled(a, e)
  {
  }

  lemma StepRefines(s: State, a: S.Os, e: Event)
    requires Refines(s, a)
    ensures Refines(Step(s, e).s, S.Step(a, e).a)
    ensures Step(s, e).out == S.Step(a, e).out
  {
    EnabledAgree(s, a, e);
    if S.Enabled(a, e) {
      match e
      case Execute(valid) => assert Step(s, e) == DoExecute(s, valid); ExecuteRefines(s, a, valid);
      case Halt(status) => assert Step(s, e) == DoHalt(s, status); HaltRefines(s, a, status);
      case Timer => assert Step(s, e) == DoTimer(s); TimerRefines(s, a);
      case Vidmap(valid) => assert Step(s, e) == DoVidmap(s, valid); VidmapRefines(s, a, valid);
      case SetDisplay(n) => assert Step(s, e) == DoSetDisplay(s, n); DisplayRefines(s, a, n);
      case Tick => assert Step(s, e) == DoTick(s); TickRefines(s, a); TickOut(s, a);
      case Block => assert Step(s, e) == DoBlock(s); BlockRefines(s, a);
      case Wake => assert Step(s, e) == DoWake(s); WakeRefines(s, a);
    }
  }

  /** For every list of events the machine reports exactly what the session machine reports,
      and never crashes: no assertion of the source fails and no stale frame is returned through. */
  lemma {:induction false} RunRefines(s: State, a: S.Os, es: seq<Event>)
    requires Refines(s, a)
    ensures Refines(After(s, es), S.After(a, es))
    ensures Trace(s, es) == S.Trace(a, es)
    ensures !After(s, es).cpu.Crashed?
    decreases |es|
  {
    if es == [] {
    } else {
      StepRefines(s, a, es[0]);
      RunRefines(Step(s, es[0]).s, S.Step(a, es[0]).a, es[1..]);
    }
  }

  // ---------------------------------------------------------------- boot

  /** An unused slot; its other fields are never read before CreateChild sets them. */
  const NO_PCB := Pcb(-1, -1, StackPtr(-1, 0), StackPtr(-1, 0), 0, Sched, false, 0)

  /** process_init and terminal_init, on the boot stack. */
  function Initial(n: nat, terminals: nat, counter: U32): State {
    State(seq(n, _ => NO_PCB), seq(n, _ => -1), seq(n, _ => []), InKernel(-1), 0, -1,
          VidmapEntry(false, Vga),
          seq(terminals, t => Term(if t == 0 then Vga else Backing(t), false)), 0, counter, true)
  }

  /** The loop of process_start_shell from terminal i on. */
  function ShellsFrom(s: State, i: nat): (r: State)
    requires Sized(s) && i <= |s.terms|
    ensures SameSize(s, r)
    decreases |s.terms| - i
  {
    if i == |s.terms| then s
    else
      var slot := FreeFrom(s.procs, 0);
      if slot == |s.procs| then ShellsFrom(s, i + 1)
      else ShellsFrom(CreateChild(s, slot, -1, i), i + 1)
  }

  /** process_start_shell. */
  function Boot(n: nat, terminals: nat, counter: U32): State
    requires 0 < terminals <= n
  {
    var s := ShellsFrom(Initial(n, terminals, counter), 1);
    var slot := FreeFrom(s.procs, 0);
    if slot == |s.procs| then s else RunImpl(CreateChild(s, slot, -1, 0), slot, -1)
  }

  function BootedOs(n: nat, terminals: nat): S.Os {
    S.Os(n, seq(terminals, t => [S.RootSlot(t, terminals)]), 0, {}, {}, 0, seq(n, _ => 0), 0)
  }

  const BOOT_SP := StackPtr(-1, 0)

  /** Terminals 1 .. i-1 have their shells, in slots 0 .. i-2. */
  ghost predicate Booting(s: State, n: nat, terminals: nat, counter: U32, i: nat)
    requires 0 < terminals <= n && 0 < i <= terminals
  {
    && |s.procs| == n && |s.home| == n
    && s == Initial(n, terminals, counter).(procs := s.procs, home := s.home, userFrame := s.userFrame)
    && (forall j :: 0 <= j < i - 1 ==> s.procs[j] == Pcb(j, -1, BOOT_SP, BOOT_SP, j + 1, Sched, false, counter) && s.home[j] == j)
    && (forall j :: i - 1 <= j < n ==> s.procs[j] == NO_PCB)
  }

  lemma {:induction false} ShellsBoot(s: State, n: nat, terminals: nat, counter: U32, i: nat)
    requires 0 < terminals <= n && 0 < i <= terminals
    requires Booting(s, n, terminals, counter, i)
    ensures Booting(ShellsFrom(s, i), n, terminals, counter, terminals)
    decreases terminals - i
  {
    assert s.procs[i - 1].pid < 0;
    assert FreeFrom(s.procs, 0) == i - 1;
    if i < terminals {
      ShellsBoot(CreateChild(s, i - 1, -1, i), n, terminals, counter, i + 1);
    }
  }

  lemma BootForm(n: nat, terminals: nat, counter: U32)
    requires 0 < terminals <= n
    ensures var s := ShellsFrom(Initial(n, terminals, counter), 1);
            && Booting(s, n, terminals, counter, terminals)
            && Boot(n, terminals, counter) ==
                 s.(procs := s.procs[terminals - 1 := Pcb(terminals - 1, -1, BOOT_SP, BOOT_SP, 0, Run, false, counter)],
                    home := s.home[terminals - 1 := terminals - 1],
                    cpu := User(terminals - 1), userFrame := terminals + 1, esp0 := terminals - 1,
                    vid := VidmapEntry(false, Vga))
  {
    var s := ShellsFrom(Initial(n, terminals, counter), 1);
    ShellsBoot(Initial(n, terminals, counter), n, terminals, counter, 1);
    assert s.procs[terminals - 1].pid < 0;
    assert FreeFrom(s.procs, 0) == terminals - 1;
    assert s.terms[0] == Term(Vga, false);
    assert s.terms[0 := Term(Vga, false)] == s.terms;
  }

  lemma BootedWellFormed(n: nat, terminals: nat)
    requires 0 < terminals <= n
    ensures S.WellFormed(BootedOs(n, terminals))
  {
  }

  lemma BootChains(n: nat, terminals: nat, counter: U32)
    requires 0 < terminals <= n
    ensures Chains(Boot(n, terminals, counter), BootedOs(n, terminals))
    ensures Covered(Boot(n, terminals, counter), BootedOs(n, terminals))
  {
    BootForm(n, terminals, counter);
    var s := Boot(n, terminals, counter);
    var a := BootedOs(n, terminals);
    forall p | 0 <= p < n && s.procs[p].pid >= 0
      ensures 0 <= s.procs[p].terminal < |a.calls| && p in a.calls[s.procs[p].terminal]
    {
      var t := s.procs[p].terminal;
      assert a.calls[t] == [S.RootSlot(t, terminals)];
      assert a.calls[t][0] == p;
    }
  }

  lemma BootRest(n: nat, terminals: nat, counter: U32)
    requires 0 < terminals <= n && S.WellFormed(BootedOs(n, terminals))
    ensures var s := Boot(n, terminals, counter); var a := BootedOs(n, terminals);
            Shape(s, a) && Frames(s, a) && Context(s, a) && Clock(s, a)
  {
    BootShape(n, terminals, counter);
    BootContext(n, terminals, counter);
  }

  lemma BootShape(n: nat, terminals: nat, counter: U32)
    requires 0 < terminals <= n && S.WellFormed(BootedOs(n, terminals))
    ensures Shape(Boot(n, terminals, counter), BootedOs(n, terminals)) && Frames(Boot(n, terminals, counter), BootedOs(n, terminals))
  {
    BootForm(n, terminals, counter);
  }

  lemma BootContext(n: nat, terminals: nat, counter: U32)
    requires 0 < terminals <= n && Shape(Boot(n, terminals, counter), BootedOs(n, terminals))
    ensures Context(Boot(n, terminals, counter), BootedOs(n, terminals)) && Clock(Boot(n, terminals, counter), BootedOs(n, terminals))
  {
    BootForm(n, terminals, counter);
  }

  lemma BootVideo(n: nat, terminals: nat, counter: U32)
    requires 0 < terminals <= n
    requires Shape(Boot(n, terminals, counter), BootedOs(n, terminals))
    ensures Video(Boot(n, terminals, counter), BootedOs(n, terminals))
  {
    BootForm(n, terminals, counter);
  }

  /** Before its first step the kernel already is one shell per terminal. */
  lemma BootRefines(n: nat, terminals: nat, counter: U32)
    requires 0 < terminals <= n
    ensures Refines(Boot(n, terminals, counter), BootedOs(n, terminals))
  {
    BootedWellFormed(n, terminals);
    BootChains(n, terminals, counter);
    BootRest(n, terminals, counter);
    BootVideo(n, terminals, counter);
  }
}
