/** The theorems about every reachable kernel state, in the kernel's own terms. */
module KernelFacts {
  import opened Events
  import opened Kernel
  import opened Machine
  import opened Refinement
  import opened KernelTheorems
  import opened CallRefines
  import opened InterruptRefines
  import S = Sessions
  import T = SessionTheorems

  /** s is what some run from boot leads to, whatever the table sizes and the clock. */
  ghost predicate Reachable(s: State) {
    exists n: nat, terminals: nat, counter: U32, es: seq<Event> ::
      0 < terminals <= n && s == After(Boot(n, terminals, counter), es)
  }

  lemma ReachableRefines(s: State) returns (a: S.Os)
    requires Reachable(s)
    ensures Refines(s, a)
  {
    var n: nat, terminals: nat, counter: U32, es: seq<Event> :|
      0 < terminals <= n && s == After(Boot(n, terminals, counter), es);
    BootRefines(n, terminals, counter);
    RunRefines(Boot(n, terminals, counter), BootedOs(n, terminals), es);
    a := S.After(BootedOs(n, terminals), es);
  }

  predicate Live(s: State, p: int) { 0 <= p < |s.procs| && s.procs[p].pid >= 0 }

  predicate IsChild(s: State, c: int, p: int) { Live(s, c) && s.procs[c].parentPid == p }

  // ---------------------------------------------------------------- the process table

  /** A process sleeps exactly when it has a live child, and never has two. */
  lemma SleepsIffOneChild(s: State, p: int)
    requires Reachable(s) && Live(s, p)
    ensures s.procs[p].status == Sleep <==> exists c :: IsChild(s, c, p)
    ensures forall c, d :: IsChild(s, c, p) && IsChild(s, d, p) ==> c == d
    ensures s.procs[p].pid == p
  {
    var a := ReachableRefines(s);
    LiveIsOccupied(s, a, p);
    var t := s.procs[p].terminal;
    var i :| 0 <= i < |a.calls[t]| && a.calls[t][i] == p;
    assert Linked(s, a, t, i);
    if i + 1 < |a.calls[t]| {
      assert Linked(s, a, t, i + 1);
      assert IsChild(s, a.calls[t][i + 1], p);
    }
    forall c | IsChild(s, c, p) ensures i + 1 < |a.calls[t]| && c == a.calls[t][i + 1] {
      ChildIsNext(s, a, t, i, c);
    }
  }

  lemma ChildIsNext(s: State, a: S.Os, t: int, i: int, c: int)
    requires Refines(s, a)
    requires 0 <= t < |a.calls| && 0 <= i < |a.calls[t]|
    requires IsChild(s, c, a.calls[t][i])
    ensures i + 1 < |a.calls[t]| && c == a.calls[t][i + 1]
  {
    var u := s.procs[c].terminal;
    var j :| 0 <= j < |a.calls[u]| && a.calls[u][j] == c;
    assert Linked(s, a, u, j);
    assert Linked(s, a, t, i);
    assert Linked(s, a, u, j - 1);
    assert S.Distinct(a.calls[t]);
  }

  /** Exactly one process of each terminal is awake: the one get_pcb_by_terminal finds. */
  lemma OneAwakePerTerminal(s: State, t: int) returns (p: int)
    requires Reachable(s) && 0 <= t < |s.terms|
    ensures Runnable(s.procs, p) && s.procs[p].terminal == t
    ensures forall q :: Runnable(s.procs, q) && s.procs[q].terminal == t ==> q == p
    ensures s.terms[t].vidmap == s.procs[p].vidmap
  {
    var a := ReachableRefines(s);
    p := S.Top(a.calls, t);
    assert Linked(s, a, t, |a.calls[t]| - 1);
    forall q | Runnable(s.procs, q) && s.procs[q].terminal == t ensures q == p {
      RunnableIsTop(s, a, q);
      var u :| 0 <= u < |a.calls| && S.Top(a.calls, u) == q;
      assert Linked(s, a, u, |a.calls[u]| - 1);
    }
  }

  /** Root shells occupy exactly the first NUM_TERMINALS slots, each terminal's always the same one. */
  lemma RootsKeepTheirSlots(s: State, p: int)
    requires Reachable(s) && 0 <= p < |s.procs|
    ensures p < |s.terms| <==> Live(s, p) && s.procs[p].parentPid < 0
    ensures p < |s.terms| ==> s.procs[p].terminal == if p == |s.terms| - 1 then 0 else p + 1
  {
    var a := ReachableRefines(s);
    if p < |s.terms| {
      var t := if p == |s.terms| - 1 then 0 else p + 1;
      assert a.calls[t][0] == S.RootSlot(t, |a.calls|) == p;
      assert Linked(s, a, t, 0);
    }
    if Live(s, p) && s.procs[p].parentPid < 0 {
      var t := s.procs[p].terminal;
      var i :| 0 <= i < |a.calls[t]| && a.calls[t][i] == p;
      assert Linked(s, a, t, i);
    }
  }

  // ---------------------------------------------------------------- context switches

  /** In user mode the user page, tss.esp0 and the PCB found by masking ESP all belong to the
      process whose registers are loaded. */
  lemma UserModeIsCoherent(s: State)
    requires Reachable(s)
    ensures !s.cpu.Crashed?
    ensures s.cpu.User? ==>
              var p := s.cpu.who;
              && Live(s, p) && s.procs[p].pid == p && s.procs[p].status == Run
              && s.userFrame == p + 2 && s.esp0 == p && Executing(Enter(s)) == p
  {
    var a := ReachableRefines(s);
    EnterFacts(s, a);
  }

  /** The comment in process_switch_impl: a RUN process that is not on the processor is inside
      process_switch_impl itself, on its own kernel stack; and every child of a sleeping
      process holds a pointer to that process's frame in process_run_impl. */
  lemma SavedFramesAreIntact(s: State, p: int)
    requires Reachable(s) && Live(s, p) && |s.stacks| == |s.procs|
    ensures s.procs[p].status == Run && p != Running(s) ==>
              var sp := s.procs[p].kernelSp;
              sp.stack == p && 0 < sp.depth <= |s.stacks[p]| && s.stacks[p][sp.depth - 1] == InSwitch
    ensures 0 <= s.procs[p].parentPid < |s.procs| ==>
              var q := s.procs[p].parentPid; var sp := s.procs[p].parentSp;
              sp.stack == q && 0 < sp.depth <= |s.stacks[q]| && s.stacks[q][sp.depth - 1] == InRun
  {
    var a := ReachableRefines(s);
    assert FramesOf(s, a, p, Running(s));
    var b := s.procs[p];
    if b.status == Run && p != Running(s) {
      assert s.stacks[p][..b.kernelSp.depth][b.kernelSp.depth - 1] == InSwitch;
    }
    if 0 <= b.parentPid < |s.procs| {
      assert s.stacks[b.parentPid][..2][1] == InRun;
    }
  }

  // ---------------------------------------------------------------- vidmap

  /** The vidmap entry is present exactly when the process on the processor has called vidmap,
      and then it shows that process's own terminal, wherever its screen now is. */
  lemma VidmapIsCoherent(s: State)
    requires Reachable(s)
    ensures var c := Running(s);
            && Live(s, c)
            && (s.vid.present <==> s.procs[c].vidmap)
            && (s.vid.present ==> 0 <= s.procs[c].terminal < |s.terms| && s.vid.target == s.terms[s.procs[c].terminal].videoMem)
    ensures forall t :: 0 <= t < |s.terms| ==> (s.terms[t].videoMem == Vga <==> t == s.display)
  {
    var a := ReachableRefines(s);
    CurrentFacts(s, a);
  }

  // ---------------------------------------------------------------- execute and halt

  /** A failed execute leaves everything but the caller's own kernel stack as it was. */
  lemma FailedExecuteChangesNothing(s: State, valid: bool)
    requires Reachable(s)
    requires Step(s, Execute(valid)).out == Failed
    ensures var c := Running(s);
            0 <= c < |s.stacks| && Step(s, Execute(valid)).s == s.(stacks := s.stacks[c := []])
    ensures !valid || forall p :: 0 <= p < |s.procs| ==> Live(s, p)
  {
    var a := ReachableRefines(s);
    CurrentFacts(s, a);
    EnterFacts(s, a);
    InAndOut(s, a);
    SameFreeSlot(s, a, 0);
  }

  /** Whatever happens after p's execute() started a child c, on this or any other terminal:
      if execute() returns, it returns what c halted with. */
  lemma ExecuteReturnsChildStatus(s: State, es: seq<Event>, k: nat, status: int)
    requires Reachable(s)
    requires Step(s, Execute(true)).out.Spawned?
    requires var s1 := Step(s, Execute(true)).s; var p := Running(s);
             && k < |es|
             && Trace(s1, es)[k] == Resumed(p, status)
             && forall j :: 0 <= j < k ==> !(Trace(s1, es)[j].Resumed? && Trace(s1, es)[j].parent == p)
    ensures es[k] == Halt(status)
    ensures Running(After(Step(s, Execute(true)).s, es[..k])) == Step(s, Execute(true)).out.child
  {
    var a := ReachableRefines(s);
    StepRefines(s, a, Execute(true));
    var s1 := Step(s, Execute(true)).s;
    var a1 := S.Step(a, Execute(true)).a;
    RunRefines(s1, a1, es);
    RunRefines(s1, a1, es[..k]);
    T.SpawnedOnTop(a);
    T.ReturnMatches(a1, a.active, a1.calls[a.active], es, k, status);
  }

  lemma PushThenPop(a: S.Os, status: int)
    requires S.WellFormed(a) && S.Current(a) !in a.waiting && S.Step(a, Execute(true)).out.Spawned?
    requires S.Step(a, Execute(true)).out.child !in a.waiting
    ensures var b := S.Step(a, Execute(true)).a;
            && S.WellFormed(b)
            && S.Step(b, Halt(status)).out == Resumed(S.Current(a), status)
            && S.Step(b, Halt(status)).a == b.(calls := a.calls)
  {
    S.StepWellFormed(a, Execute(true));
    var b := S.Step(a, Execute(true)).a;
    var st, c := a.calls[a.active], S.Step(a, Execute(true)).out.child;
    assert b.calls[a.active] == st + [c];
    assert (st + [c])[..|st|] == st;
    assert b.calls[a.active := st] == a.calls;
  }

  lemma CalledAndBack(s: State, a: S.Os, status: int) returns (b: S.Os)
    requires Refines(s, a) && s.cpu.User? && Step(s, Execute(true)).out.Spawned?
    ensures var r := Step(Step(s, Execute(true)).s, Halt(status));
            && r.out == Resumed(Running(s), status)
            && Refines(r.s, b) && b.calls == a.calls && b.active == a.active && b.slots == a.slots
  {
    StepRefines(s, a, Execute(true));
    var c := S.Step(a, Execute(true)).out.child;
    CurrentFacts(s, a);
    SameFreeSlot(s, a, 0);
    assert c !in a.waiting by { assert s.procs[c].pid < 0; }
    PushThenPop(a, status);
    StepRefines(Step(s, Execute(true)).s, S.Step(a, Execute(true)).a, Halt(status));
    b := S.Step(a, Execute(true)).a.(calls := a.calls);
  }

  /** halt undoes execute: a program that halts at once leaves its caller running again with its
      status, and the same processes alive as before. */
  lemma ExecuteThenHalt(s: State, status: int)
    requires Reachable(s) && s.cpu.User? && Step(s, Execute(true)).out.Spawned?
    ensures var r := Step(Step(s, Execute(true)).s, Halt(status));
            && r.out == Resumed(Running(s), status)
            && Running(r.s) == Running(s) && |r.s.procs| == |s.procs|
            && forall p :: 0 <= p < |s.procs| ==> (Live(r.s, p) <==> Live(s, p))
  {
    var a := ReachableRefines(s);
    var b := CalledAndBack(s, a, status);
    SameLive(s, a, Step(Step(s, Execute(true)).s, Halt(status)).s, b);
  }

  lemma SameLive(s: State, a: S.Os, s': State, a': S.Os)
    requires Refines(s, a) && Refines(s', a') && a'.calls == a.calls && a'.active == a.active && a'.slots == a.slots
    ensures Running(s') == Running(s) && |s'.procs| == |s.procs|
    ensures forall p :: 0 <= p < |s.procs| ==> (Live(s', p) <==> Live(s, p))
  {
    forall p | 0 <= p < |s.procs| ensures Live(s', p) <==> Live(s, p) {
      LiveIsOccupied(s, a, p);
      LiveIsOccupied(s', a', p);
    }
  }

  /** The assertion after the respawn of a root shell is unreachable if and only if "shell" is a
      valid executable. */
  lemma RespawnNeedsOnlyTheShell(s: State, status: int)
    requires Reachable(s.(shellValid := true))
    requires s.cpu.User? && 0 <= s.cpu.who < |s.procs| && s.procs[s.cpu.who].parentPid < 0
    requires Sized(s)
    ensures Step(s, Halt(status)).s.cpu.Crashed? <==> !s.shellValid
    ensures s.shellValid ==> Step(s, Halt(status)).out == Respawned(s.cpu.who)
  {
    var s' := s.(shellValid := true);
    var a := ReachableRefines(s');
    EnterFacts(s', a);
    CurrentFacts(s', a);
    assert Linked(s', a, a.active, |a.calls[a.active]| - 1);
    if s.shellValid {
      StepRefines(s', a, Halt(status));
    }
  }

  // ---------------------------------------------------------------- fairness

  /** Over any stretch without execute or halt, n timer interrupts hand the processor to the
      n-th terminal of a fixed rotation that visits every terminal once per round. */
  lemma SchedulerIsFair(s: State, es: seq<Event>, t: int) returns (a: S.Os, k: nat)
    requires Reachable(s) && T.NoCalls(es) && 0 <= t < |s.terms|
    ensures Refines(s, a)
    ensures Running(After(s, es)) == S.Top(a.calls, T.Turn(a, T.Timers(es)))
    ensures k < |s.terms| && T.Turn(a, k) == t
    ensures T.Turn(a, |s.terms|) == a.active
  {
    a := ReachableRefines(s);
    RunRefines(s, a, es);
    T.RoundRobin(a, es);
    k := T.TurnReaches(a, t);
    T.TurnCloses(a);
  }

  // ---------------------------------------------------------------- alarms

  /** Process c lives throughout es. */
  ghost predicate Survives(s: State, es: seq<Event>, c: int)
    requires Sized(s)
    decreases |es|
  {
    && Live(s, c)
    && (es == [] || (!(es[0].Halt? && Enabled(s, es[0]) && Running(s) == c) && Survives(Step(s, es[0]).s, es[1..], c)))
  }

  lemma {:induction false} SurvivesAgree(s: State, a: S.Os, es: seq<Event>, c: int)
    requires Refines(s, a) && Survives(s, es, c)
    ensures T.Survives(a, es, c)
    decreases |es|
  {
    LiveIsOccupied(s, a, c);
    if es != [] {
      EnabledAgree(s, a, es[0]);
      StepRefines(s, a, es[0]);
      SurvivesAgree(Step(s, es[0]).s, S.Step(a, es[0]).a, es[1..], c);
    }
  }

  /** The next tick alarms c iff es made it a multiple of the period old. */
  ghost predicate OnTime(s: State, es: seq<Event>, c: int)
    requires Sized(s)
  {
    var out := Step(After(s, es), Tick).out;
    out.Alarms? && (c in out.pids <==> (T.Ticks(es) + 1) % 10240 == 0)
  }

  lemma AlarmsFromBirth(s: State, a: S.Os, es: seq<Event>, c: int)
    requires Refines(s, a) && Survives(s, es, c)
    requires 0 <= c < |a.born| == a.slots && a.born[c] == a.ticks
    ensures OnTime(s, es, c)
  {
    SurvivesAgree(s, a, es, c);
    RunRefines(s, a, es);
    T.AlarmSchedule(a, es, c);
    StepRefines(After(s, es), S.After(a, es), Tick);
  }

  /** A program gets SIG_ALARM at exactly every 10240th tick after its execute(), for as long as it
      lives, whatever else happens and wherever the 32-bit counter stood. */
  lemma AlarmsAreOnTime(s: State, es: seq<Event>)
    requires Reachable(s) && Step(s, Execute(true)).out.Spawned?
    requires var r := Step(s, Execute(true)); Survives(r.s, es, r.out.child)
    ensures var r := Step(s, Execute(true)); OnTime(r.s, es, r.out.child)
  {
    var a := ReachableRefines(s);
    StepRefines(s, a, Execute(true));
    BornNow(a, Execute(true));
    var r := Step(s, Execute(true));
    AlarmsFromBirth(r.s, S.Step(a, Execute(true)).a, es, r.out.child);
  }

  /** So does every shell that takes the place of one that exited ... */
  lemma RespawnedAlarmsAreOnTime(s: State, status: int, es: seq<Event>)
    requires Reachable(s) && Step(s, Halt(status)).out.Respawned?
    requires var r := Step(s, Halt(status)); Survives(r.s, es, r.out.root)
    ensures var r := Step(s, Halt(status)); OnTime(r.s, es, r.out.root)
  {
    var a := ReachableRefines(s);
    StepRefines(s, a, Halt(status));
    BornNow(a, Halt(status));
    var r := Step(s, Halt(status));
    AlarmsFromBirth(r.s, S.Step(a, Halt(status)).a, es, r.out.root);
  }

  /** ... and every first shell, counting from boot. */
  lemma BootAlarmsAreOnTime(n: nat, terminals: nat, counter: U32, es: seq<Event>, c: int)
    requires 0 < terminals <= n && Sized(Boot(n, terminals, counter)) && Survives(Boot(n, terminals, counter), es, c)
    ensures OnTime(Boot(n, terminals, counter), es, c)
  {
    BootRefines(n, terminals, counter);
    AlarmsFromBirth(Boot(n, terminals, counter), BootedOs(n, terminals), es, c);
  }

  lemma BornNow(a: S.Os, e: Event)
    requires S.WellFormed(a) && (S.Step(a, e).out.Spawned? || S.Step(a, e).out.Respawned?)
    ensures var r := S.Step(a, e); var c := if r.out.Spawned? then r.out.child else r.out.root;
            0 <= c < r.a.slots == |r.a.born| && r.a.born[c] == r.a.ticks
  {
  }
}
