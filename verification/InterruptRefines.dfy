/** The events that move no process: alarms, vidmap, display switches and blocking reads. */
module InterruptRefines {
  import opened Events
  import opened Kernel
  import opened Machine
  import opened Arithmetic
  import opened Refinement
  import S = Sessions

  /** The kernel stack of a process in user mode is scratch space. */
  lemma Scratch(s: State, a: S.Os, recs: seq<Record>)
    requires Refines(s, a)
    requires S.Current(a) in a.waiting ==> recs == s.stacks[S.Current(a)]
    ensures Refines(s.(stacks := s.stacks[S.Current(a) := recs]), a)
  {
    var c := S.Current(a);
    CurrentFacts(s, a);
    var s' := s.(stacks := s.stacks[c := recs]);
    forall t, i | 0 <= t < |a.calls| && 0 <= i < |a.calls[t]| ensures Linked(s', a, t, i) {
      assert Linked(s, a, t, i);
    }
    forall p | 0 <= p < |s'.procs| && s'.procs[p].pid >= 0 ensures FramesOf(s', a, p, Running(s')) {
      assert FramesOf(s, a, p, Running(s));
      TopIsChildless(s, a, a.active, p);
    }
  }

  /** The state once an interrupt that changed nothing has returned. */
  ghost function Settled(s: State, a: S.Os): State
    requires Refines(s, a)
  {
    CurrentFacts(s, a);
    var c := S.Current(a);
    s.(stacks := s.stacks[c := if c in a.waiting then s.stacks[c] else []])
  }

  /** Whatever the kernel does between Enter and Leave that leaves the stacks and the
      processor alone could as well be done at the interruptible point. */
  lemma LeaveCommutes(s: State, a: S.Os, s2: State)
    requires Refines(s, a)
    requires s2.stacks == Enter(s).stacks && s2.cpu == Enter(s).cpu
    ensures Leave(s2) == s2.(cpu := s.cpu, stacks := Settled(s, a).stacks)
    ensures Refines(Settled(s, a), a)
  {
    var c := S.Current(a);
    EnterFacts(s, a);
    CurrentFacts(s, a);
    if c in a.waiting {
      assert [Entry(c), InWait, Nested][..2] == [Entry(c), InWait];
      assert s2.stacks[c := [Entry(c), InWait]] == s.stacks[c := s.stacks[c]];
      Scratch(s, a, s.stacks[c]);
    } else {
      Scratch(s, a, []);
    }
  }

  lemma InAndOut(s: State, a: S.Os)
    requires Refines(s, a)
    ensures Leave(Enter(s)) == Settled(s, a)
    ensures Refines(Leave(Enter(s)), a)
  {
    EnterFacts(s, a);
    LeaveCommutes(s, a, Enter(s));
  }

  // ---------------------------------------------------------------- alarms

  /** One tick, even if the 32-bit counter wraps. */
  lemma ClockedKeeps(b: Pcb, counter: U32, born: nat, ticks: nat)
    requires ClockOf(b, counter, born, ticks)
    requires b.pid >= 0
    ensures AlarmDue(b, Add32(counter, 1)) <==> (ticks + 1 - born) % ALARM_TICKS == 0
    ensures ClockOf(Clocked(b, Add32(counter, 1)), Add32(counter, 1), born, ticks + 1)
  {
    ModSucc(ticks - born, ALARM_TICKS);
  }

  /** Equal but for the vidmap flag and the alarm time. */
  predicate SameLinks(b: Pcb, b': Pcb) {
    b' == b.(vidmap := b'.vidmap, lastAlarm := b'.lastAlarm)
  }

  ghost predicate SameTable(s: State, s': State) {
    && |s'.procs| == |s.procs|
    && forall p :: 0 <= p < |s.procs| ==> SameLinks(s.procs[p], s'.procs[p])
  }

  lemma LinksKept(s: State, a: S.Os, s': State, a': S.Os)
    requires Refines(s, a)
    requires SameTable(s, s') && a'.calls == a.calls
    ensures Chains(s', a') && Covered(s', a')
  {
    forall t, i | 0 <= t < |a'.calls| && 0 <= i < |a'.calls[t]| ensures Linked(s', a', t, i) {
      assert Linked(s, a, t, i);
    }
  }

  lemma FramesKept(s: State, a: S.Os, s': State, a': S.Os)
    requires Refines(s, a)
    requires SameTable(s, s') && s'.stacks == s.stacks && s'.cpu == s.cpu && a'.waiting == a.waiting
    ensures Frames(s', a')
  {
    forall p | 0 <= p < |s'.procs| && s'.procs[p].pid >= 0 ensures FramesOf(s', a', p, Running(s')) {
      assert FramesOf(s, a, p, Running(s));
    }
  }

  /** What a clock interrupt changes. */
  function Ticked(s: State): State {
    s.(counter := Add32(s.counter, 1), procs := ClockedAll(s.procs, Add32(s.counter, 1)))
  }

  lemma TickForm(s: State, a: S.Os)
    requires Refines(s, a)
    ensures DoTick(s).s == Ticked(Settled(s, a))
  {
    EnterFacts(s, a);
    LeaveCommutes(s, a, Ticked(Enter(s)));
  }

  lemma TickRefines(s: State, a: S.Os)
    requires Refines(s, a)
    ensures Refines(DoTick(s).s, S.Step(a, Tick).a)
  {
    InAndOut(s, a);
    TickForm(s, a);
    assert S.Step(a, Tick).a == a.(ticks := a.ticks + 1);
    TickKeeps(Settled(s, a), a);
  }

  lemma DueMatches(s: State, a: S.Os, p: int)
    requires Shape(s, a) && Clock(s, a)
    requires 0 <= p < |s.procs|
    requires s.procs[p].pid >= 0 <==> S.Occupied(a.calls, p)
    ensures AlarmDue(s.procs[p], Add32(s.counter, 1)) <==>
            S.Occupied(a.calls, p) && (a.ticks + 1 - a.born[p]) % ALARM_TICKS == 0
  {
    if s.procs[p].pid >= 0 {
      ClockedKeeps(s.procs[p], s.counter, a.born[p], a.ticks);
    }
  }

  lemma AlarmsMatch(s: State, a: S.Os)
    requires Refines(s, a)
    ensures (set p | 0 <= p < |s.procs| && AlarmDue(s.procs[p], Add32(s.counter, 1)))
         == (set p | 0 <= p < a.slots && S.Occupied(a.calls, p) && (a.ticks + 1 - a.born[p]) % ALARM_TICKS == 0)
  {
    forall p | 0 <= p < |s.procs|
      ensures AlarmDue(s.procs[p], Add32(s.counter, 1)) <==>
              S.Occupied(a.calls, p) && (a.ticks + 1 - a.born[p]) % ALARM_TICKS == 0
    {
      LiveIsOccupied(s, a, p);
      DueMatches(s, a, p);
    }
  }

  lemma TickOut(s: State, a: S.Os)
    requires Refines(s, a)
    ensures DoTick(s).out == S.Step(a, Tick).out
  {
    EnterFacts(s, a);
    AlarmsMatch(s, a);
  }

  lemma ClockTicks(s: State, a: S.Os)
    requires Shape(s, a) && Clock(s, a)
    ensures var procs := ClockedAll(s.procs, Add32(s.counter, 1));
            forall p :: 0 <= p < |s.procs| && s.procs[p].pid >= 0 ==> ClockOf(procs[p], Add32(s.counter, 1), a.born[p], a.ticks + 1)
  {
    forall p | 0 <= p < |s.procs| && s.procs[p].pid >= 0
      ensures ClockOf(ClockedAll(s.procs, Add32(s.counter, 1))[p], Add32(s.counter, 1), a.born[p], a.ticks + 1)
    {
      ClockedKeeps(s.procs[p], s.counter, a.born[p], a.ticks);
    }
  }

  lemma TickKeeps(s: State, a: S.Os)
    requires Refines(s, a)
    ensures Refines(Ticked(s), a.(ticks := a.ticks + 1))
  {
    var s' := Ticked(s);
    var a' := a.(ticks := a.ticks + 1);
    LinksKept(s, a, s', a');
    FramesKept(s, a, s', a');
    ClockTicks(s, a);
  }

  // ---------------------------------------------------------------- vidmap and display

  lemma VidmapKeeps(s: State, a: S.Os)
    requires Refines(s, a)
    ensures var c := S.Current(a);
            0 <= c < |s.procs| &&
            var s2 := UpdateVidmap(s, s.procs[c].terminal, true);
            |s2.procs| == |s.procs| &&
            Refines(s2.(procs := s2.procs[c := s2.procs[c].(vidmap := true)]), a.(mapped := a.mapped + {c}))
  {
    var c := S.Current(a);
    CurrentFacts(s, a);
    var s2 := UpdateVidmap(s, a.active, true);
    var s' := s2.(procs := s2.procs[c := s2.procs[c].(vidmap := true)]);
    var a' := a.(mapped := a.mapped + {c});
    LinksKept(s, a, s', a');
    FramesKept(s, a, s', a');
    assert Video(s', a') by {
      forall t | 0 <= t < |s.terms| && t != a.active ensures S.Top(a.calls, t) != c {
        assert S.Top(a.calls, t) in a.calls[t];
      }
    }
  }

  lemma VidmapRefines(s: State, a: S.Os, valid: bool)
    requires Refines(s, a)
    requires S.Enabled(a, Vidmap(valid))
    ensures Refines(DoVidmap(s, valid).s, S.Step(a, Vidmap(valid)).a)
    ensures DoVidmap(s, valid).out == S.Step(a, Vidmap(valid)).out
  {
    EnterFacts(s, a);
    CurrentFacts(s, a);
    if valid {
      var c := S.Current(a);
      var s2 := UpdateVidmap(Enter(s), a.active, true);
      LeaveCommutes(s, a, s2.(procs := s2.procs[c := s2.procs[c].(vidmap := true)]));
      VidmapKeeps(Settled(s, a), a);
    } else {
      InAndOut(s, a);
    }
  }

  /** What set_display_terminal changes. */
  function Displayed(s: State, n: int, exec: int): State
    requires 0 <= s.display < |s.terms| && 0 <= n < |s.terms| && 0 <= exec < |s.terms|
  {
    var prev := s.display;
    var s2 := s.(display := n,
                 terms := s.terms[prev := s.terms[prev].(videoMem := Backing(prev))][n := s.terms[n].(videoMem := Vga)]);
    if s2.terms[exec].vidmap && (prev == exec || n == exec)
    then s2.(vid := VidmapEntry(true, s2.terms[exec].videoMem))
    else s2
  }

  lemma DisplayVideo(s: State, a: S.Os, n: int)
    requires Refines(s, a)
    requires 0 <= n < |s.terms| && n != s.display
    requires Shape(Displayed(s, n, a.active), a.(display := n))
    ensures Video(Displayed(s, n, a.active), a.(display := n))
  {
  }

  lemma DisplayKeeps(s: State, a: S.Os, n: int)
    requires Refines(s, a)
    requires 0 <= n < |s.terms| && n != s.display
    ensures Refines(Displayed(s, n, a.active), a.(display := n))
  {
    CurrentFacts(s, a);
    var s' := Displayed(s, n, a.active);
    var a' := a.(display := n);
    assert SameTable(s, s');
    LinksKept(s, a, s', a');
    FramesKept(s, a, s', a');
    assert Shape(s', a');
    DisplayVideo(s, a, n);
  }

  lemma DisplayStep(s: State, a: S.Os, n: int)
    requires Refines(s, a)
    requires 0 <= n < |s.terms| && n != s.display
    ensures DoSetDisplay(s, n) == Result(Leave(Displayed(Enter(s), n, a.active)), Nothing)
    ensures DoSetDisplay(s, n).s == Displayed(Settled(s, a), n, a.active)
  {
    EnterFacts(s, a);
    CurrentFacts(s, a);
    LeaveCommutes(s, a, Displayed(Enter(s), n, a.active));
  }

  lemma DisplaySame(s: State, a: S.Os)
    requires Refines(s, a)
    ensures DoSetDisplay(s, s.display) == Result(Settled(s, a), Nothing)
  {
    EnterFacts(s, a);
    InAndOut(s, a);
  }

  lemma DisplayRefines(s: State, a: S.Os, n: int)
    requires Refines(s, a)
    requires 0 <= n < |s.terms|
    ensures Refines(DoSetDisplay(s, n).s, S.Step(a, SetDisplay(n)).a)
    ensures DoSetDisplay(s, n).out == S.Step(a, SetDisplay(n)).out
  {
    InAndOut(s, a);
    assert S.Step(a, SetDisplay(n)) == S.OsResult(a.(display := n), Nothing);
    if n == s.display {
      DisplaySame(s, a);
      assert a.(display := n) == a;
    } else {
      DisplayStep(s, a, n);
      DisplayKeeps(Settled(s, a), a, n);
    }
  }

  // ---------------------------------------------------------------- blocking reads

  /** The current process changes mode; everyone else's frames stay good. */
  lemma ModeKept(s: State, a: S.Os, s': State, a': S.Os)
    requires Refines(s, a) && |s'.stacks| == |s.stacks|
    requires s' == s.(cpu := s'.cpu, stacks := s.stacks[S.Current(a) := s'.stacks[S.Current(a)]])
    requires a' == a.(waiting := a'.waiting)
    requires a'.waiting == a.waiting + {S.Current(a)} || a'.waiting == a.waiting - {S.Current(a)}
    requires Running(s') == S.Current(a)
    requires var c := S.Current(a);
             if c in a'.waiting then s'.cpu == InKernel(c) && s'.stacks[c] == [Entry(c), InWait] else s'.cpu == User(c)
    ensures Refines(s', a')
  {
    LinksKept(s, a, s', a');
    forall p | 0 <= p < |s'.procs| && s'.procs[p].pid >= 0 ensures FramesOf(s', a', p, Running(s')) {
      assert FramesOf(s, a, p, Running(s));
      TopIsChildless(s, a, a.active, p);
    }
  }

  lemma BlockRefines(s: State, a: S.Os)
    requires Refines(s, a)
    requires S.Enabled(a, Block)
    ensures Refines(DoBlock(s).s, S.Step(a, Block).a)
    ensures DoBlock(s).out == S.Step(a, Block).out
  {
    EnterFacts(s, a);
    CurrentFacts(s, a);
    ModeKept(s, a, DoBlock(s).s, S.Step(a, Block).a);
  }

  lemma WakeRefines(s: State, a: S.Os)
    requires Refines(s, a)
    requires S.Enabled(a, Wake)
    ensures Refines(DoWake(s).s, S.Step(a, Wake).a)
    ensures DoWake(s).out == S.Step(a, Wake).out
  {
    CurrentFacts(s, a);
    var c := S.Current(a);
    assert [Entry(c), InWait][..1] == [Entry(c)];
    ModeKept(s, a, DoWake(s).s, S.Step(a, Wake).a);
  }
}
