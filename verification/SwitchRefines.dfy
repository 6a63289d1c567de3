/** The scheduler: which process get_next_pcb picks, and that process_switch_impl resumes it
    in an intact frame with its own address space. */
module SwitchRefines {
  import opened Events
  import opened Kernel
  import opened Refinement
  import opened InterruptRefines
  import S = Sessions

  lemma Around(n: nat, cur: int, i: int)
    requires 0 <= cur < n && 0 <= i < n
    ensures (cur + i) % n == if cur + i < n then cur + i else cur + i - n
  {
    if cur + i >= n {
      assert (cur + i) % n == (cur + i - n) % n by { ModShift(cur + i - n, n); }
    }
  }

  lemma ModShift(x: int, n: nat)
    requires 0 <= x < n
    ensures (x + n) % n == x
  {
    assert (x + n) / n == 1;
  }

  /** get_next_pcb stops at the first runnable slot going round. */
  lemma NextFromSpec(procs: seq<Pcb>, cur: int, i: nat, q: int)
    requires 0 <= cur < |procs| && 0 <= q < |procs| && q != cur
    requires Runnable(procs, q)
    requires i <= S.Distance(|procs|, cur, q)
    requires forall p :: 0 <= p < |procs| && i <= S.Distance(|procs|, cur, p) < S.Distance(|procs|, cur, q) ==> !Runnable(procs, p)
    ensures NextFrom(procs, cur, i) == q
    decreases |procs| - i
  {
    Around(|procs|, cur, i);
    if i < S.Distance(|procs|, cur, q) {
      NextFromSpec(procs, cur, i + 1, q);
    }
  }

  lemma NextFromAlone(procs: seq<Pcb>, cur: int, i: nat)
    requires 0 <= cur < |procs| && 0 < i
    requires forall p :: 0 <= p < |procs| && p != cur ==> !Runnable(procs, p)
    ensures NextFrom(procs, cur, i) == cur
    decreases |procs| - i
  {
    if i < |procs| {
      Around(|procs|, cur, i);
      NextFromAlone(procs, cur, i + 1);
    }
  }

  lemma NextMatches(s: State, a: S.Os)
    requires Refines(s, a)
    ensures Next(s.procs, S.Current(a)) == S.Top(a.calls, S.NextTerminal(a))
  {
    var c := S.Current(a);
    var n := S.NextTerminal(a);
    var q := S.Top(a.calls, n);
    CurrentFacts(s, a);
    assert Linked(s, a, n, |a.calls[n]| - 1);
    if n == a.active {
      forall p | 0 <= p < |s.procs| && p != c ensures !Runnable(s.procs, p) {
        RunnableIsTop(s, a, p);
      }
      NextFromAlone(s.procs, c, 1);
    } else {
      assert q in a.calls[n];
      assert q != c;
      forall p | 0 <= p < |s.procs| && 1 <= S.Distance(|s.procs|, c, p) < S.Distance(|s.procs|, c, q)
        ensures !Runnable(s.procs, p)
      {
        RunnableIsTop(s, a, p);
      }
      RunnableIsTop(s, a, q);
      NextFromSpec(s.procs, c, 1, q);
    }
  }

  /** What process_switch_impl leaves behind for the process it switches away from. */
  function Parked(s: State, c: int, waiting: bool): State
    requires Sized(s) && 0 <= c < |s.procs|
  {
    var recs := if waiting then [Entry(c), InWait, Nested, InSwitch] else [Entry(c), InSwitch];
    s.(cpu := InKernel(c),
       stacks := s.stacks[c := recs],
       procs := s.procs[c := s.procs[c].(kernelSp := StackPtr(c, |recs|))])
  }

  /** process_switch_impl from an entered state, for a chosen next process. */
  lemma SwitchForm(s: State, c: int, q: int, waiting: bool)
    requires Sized(s)
    requires 0 <= c < |s.procs| && s.procs[c].pid == c && 0 <= q < |s.procs| && q != c
    requires var s1 := Enter(s);
             && |s1.stacks| == |s.stacks|
             && s1 == s.(cpu := InKernel(c), stacks := s.stacks[c := s1.stacks[c]])
             && s1.stacks[c] == (if waiting then [Entry(c), InWait, Nested] else [Entry(c)])
             && Executing(s1) == c
    requires Next(s.procs, c) == q && s.procs[q].status != Sleep
    ensures var s3 := Parked(s, c, waiting);
            DoTimer(s) == Result(if s.procs[q].status == Sched then RunImpl(s3, q, c)
                                 else Leave(ReturnThrough(SetContext(s3, q), s3.procs[q].kernelSp, InSwitch)), Nothing)
  {
    var s1 := Enter(s);
    assert [Entry(c), InWait, Nested] + [InSwitch] == [Entry(c), InWait, Nested, InSwitch];
    assert [Entry(c)] + [InSwitch] == [Entry(c), InSwitch];
    var s2 := Push(s1, c, InSwitch);
    assert s2.stacks == Parked(s, c, waiting).stacks;
  }

  lemma TimerStep(s: State, a: S.Os)
    requires Refines(s, a)
    requires S.NextTerminal(a) != a.active
    ensures var c := S.Current(a);
            var q := S.Top(a.calls, S.NextTerminal(a));
            && 0 <= c < |s.procs| && 0 <= q < |s.procs| && q != c
            && s.procs[q].status != Sleep
            && var s3 := Parked(s, c, c in a.waiting);
               DoTimer(s) == Result(if s.procs[q].status == Sched then RunImpl(s3, q, c)
                                    else Leave(ReturnThrough(SetContext(s3, q), s3.procs[q].kernelSp, InSwitch)), Nothing)
  {
    var n := S.NextTerminal(a);
    var c := S.Current(a);
    EnterFacts(s, a);
    CurrentFacts(s, a);
    NextMatches(s, a);
    assert Linked(s, a, n, |a.calls[n]| - 1);
    assert S.Top(a.calls, n) in a.calls[n];
    SwitchForm(s, c, S.Top(a.calls, n), c in a.waiting);
  }

  /** The processor belongs to q: its page, its kernel stack, its vidmap entry. */
  function OnProcessor(s: State, q: int, cpu: Cpu): State
    requires 0 <= q < |s.procs| && 0 <= s.procs[q].terminal < |s.terms|
  {
    s.(cpu := cpu, userFrame := q + 2, esp0 := q,
       vid := VidmapEntry(s.procs[q].vidmap, s.terms[s.procs[q].terminal].videoMem))
  }

  function ResumedAt(s: State, q: int, waiting: bool): State
    requires Sized(s) && 0 <= q < |s.procs| && 0 <= s.procs[q].terminal < |s.terms|
  {
    OnProcessor(s, q, if waiting then InKernel(q) else User(q))
    .(stacks := s.stacks[q := if waiting then [Entry(q), InWait] else []])
  }

  /** A process started for the first time on the kernel stack of c. */
  function Started(s: State, c: int, q: int): State
    requires Sized(s) && 0 <= c < |s.procs| && 0 <= q < |s.procs| && 0 <= s.procs[q].terminal < |s.terms|
  {
    var recs := s.stacks[c] + [InRun];
    OnProcessor(s, q, User(q))
    .(stacks := s.stacks[c := recs],
      procs := s.procs[q := s.procs[q].(status := Run, parentSp := StackPtr(c, |recs|))])
  }

  /** Switching to a process that was itself switched out. */
  lemma ResumeForm(s: State, c: int, q: int, wc: bool, wq: bool)
    requires Sized(s)
    requires 0 <= c < |s.procs| && 0 <= q < |s.procs| && q != c
    requires var b := s.procs[q];
             && b.pid == q
             && 0 <= b.terminal < |s.terms|
             && s.terms[b.terminal].vidmap == b.vidmap
             && b.kernelSp.stack == q
             && b.kernelSp.depth <= |s.stacks[q]|
             && SwitchedOut(s.stacks[q][..b.kernelSp.depth], q, wq)
    ensures var s3 := Parked(s, c, wc);
            Leave(ReturnThrough(SetContext(s3, q), s3.procs[q].kernelSp, InSwitch)) == ResumedAt(s3, q, wq)
  {
    var s3 := Parked(s, c, wc);
    var d := s.procs[q].kernelSp.depth;
    var recs := s.stacks[q];
    assert d == if wq then 4 else 2;
    assert recs[..d][d - 1] == InSwitch;
    assert recs[..d - 1] == recs[..d][..d - 1];
    assert s3.terms[s.procs[q].terminal := s3.terms[s.procs[q].terminal].(vidmap := s.procs[q].vidmap)] == s3.terms;
    var s4 := ReturnThrough(SetContext(s3, q), s3.procs[q].kernelSp, InSwitch);
    assert s4.stacks[q] == if wq then [Entry(q), InWait, Nested] else [Entry(q)];
    assert [Entry(q), InWait, Nested][..2] == [Entry(q), InWait];
  }

  /** Switching to a shell that has never run. */
  lemma StartForm(s: State, c: int, q: int, wc: bool)
    requires Sized(s)
    requires 0 <= c < |s.procs| && 0 <= q < |s.procs| && q != c
    requires s.procs[q].pid == q && 0 <= s.procs[q].terminal < |s.terms|
    requires s.terms[s.procs[q].terminal].vidmap == s.procs[q].vidmap
    ensures var s3 := Parked(s, c, wc);
            RunImpl(s3, q, c) == Started(s3, c, q)
  {
    var s3 := Parked(s, c, wc);
    assert s3.terms[s.procs[q].terminal := s3.terms[s.procs[q].terminal].(vidmap := s.procs[q].vidmap)] == s3.terms;
  }

  lemma ParkedFrames(s: State, a: S.Os)
    requires Refines(s, a)
    ensures var c := S.Current(a);
            0 <= c < |s.procs| &&
            var s3 := Parked(s, c, c in a.waiting);
            forall p :: 0 <= p < |s.procs| && s.procs[p].pid >= 0 ==> FramesOf(s3, a, p, -1)
  {
    var c := S.Current(a);
    CurrentFacts(s, a);
    var s3 := Parked(s, c, c in a.waiting);
    forall p | 0 <= p < |s.procs| && s.procs[p].pid >= 0 ensures FramesOf(s3, a, p, -1) {
      assert FramesOf(s, a, p, Running(s));
      TopIsChildless(s, a, a.active, p);
      var recs := s3.stacks[c];
      assert recs[..|recs|] == recs;
    }
  }

  predicate SameChain(b: Pcb, b': Pcb) {
    && b'.pid == b.pid && b'.parentPid == b.parentPid && b'.terminal == b.terminal
    && (b'.status == Sleep <==> b.status == Sleep)
    && (b'.status == Sched ==> b.status == Sched)
  }

  lemma ChainsKept(s: State, a: S.Os, s': State, a': S.Os)
    requires Refines(s, a)
    requires |s'.procs| == |s.procs| && a'.calls == a.calls
    requires forall p :: 0 <= p < |s.procs| ==> SameChain(s.procs[p], s'.procs[p])
    ensures Chains(s', a') && Covered(s', a')
  {
    forall t, i | 0 <= t < |a'.calls| && 0 <= i < |a'.calls[t]| ensures Linked(s', a', t, i) {
      assert Linked(s, a, t, i);
    }
  }

  /** The foreground program of terminal n, seen as the next process to run. */
  lemma NextFacts(s: State, a: S.Os, n: int)
    requires Refines(s, a)
    requires 0 <= n < |a.calls| && n != a.active
    ensures var c := S.Current(a); var q := S.Top(a.calls, n);
            && 0 <= c < |s.procs| && 0 <= q < |s.procs| && q != c
            && s.procs[q].pid == q && s.procs[q].terminal == n
            && s.procs[q].status != Sleep
            && s.terms[n].vidmap == s.procs[q].vidmap
            && (s.procs[q].status == Run ==> FramesOf(s, a, q, c))
            && (s.procs[q].status == Sched ==> s.procs[q].parentPid == -1 && q !in a.waiting)
  {
    CurrentFacts(s, a);
    assert Linked(s, a, n, |a.calls[n]| - 1);
    assert S.Top(a.calls, n) in a.calls[n];
    assert FramesOf(s, a, S.Top(a.calls, n), Running(s));
  }

  /** Context, video state and clocks after the processor has gone to terminal n. */
  lemma OnProcessorKeeps(s: State, a: S.Os, n: int, s': State)
    requires Refines(s, a)
    requires 0 <= n < |a.calls| && n != a.active
    requires Sized(s') && |s'.procs| == |s.procs|
    requires s' == s.(cpu := s'.cpu, stacks := s'.stacks, procs := s'.procs, userFrame := s'.userFrame, esp0 := s'.esp0, vid := s'.vid)
    requires forall p :: 0 <= p < |s.procs| ==>
               SameChain(s.procs[p], s'.procs[p]) && s'.procs[p].vidmap == s.procs[p].vidmap && s'.procs[p].lastAlarm == s.procs[p].lastAlarm
    requires var q := S.Top(a.calls, n);
             && 0 <= q < |s.procs|
             && s'.procs[q].status == Run && s'.procs[q].pid == q
             && s'.userFrame == q + 2 && s'.esp0 == q
             && (if q in a.waiting then s'.cpu == InKernel(q) && s'.stacks[q] == [Entry(q), InWait] else s'.cpu == User(q))
             && s'.vid == VidmapEntry(s.procs[q].vidmap, s.terms[n].videoMem)
    ensures Shape(s', a.(active := n)) && Context(s', a.(active := n)) && Video(s', a.(active := n)) && Clock(s', a.(active := n))
  {
  }

  lemma ResumedFrames(s: State, a: S.Os, n: int)
    requires Refines(s, a)
    requires 0 <= n < |a.calls| && n != a.active
    requires 0 <= S.Current(a) < |s.procs| && 0 <= S.Top(a.calls, n) < |s.procs|
    requires s.procs[S.Top(a.calls, n)].terminal == n
    requires s.procs[S.Top(a.calls, n)].status == Run
    ensures var c := S.Current(a); var q := S.Top(a.calls, n);
            Frames(ResumedAt(Parked(s, c, c in a.waiting), q, q in a.waiting), a.(active := n))
  {
    var c := S.Current(a);
    var q := S.Top(a.calls, n);
    var s3 := Parked(s, c, c in a.waiting);
    var s' := ResumedAt(s3, q, q in a.waiting);
    ParkedFrames(s, a);
    forall p | 0 <= p < |s.procs| && s.procs[p].pid >= 0 ensures FramesOf(s', a.(active := n), p, Running(s')) {
      assert FramesOf(s3, a, p, -1);
      TopIsChildless(s, a, n, p);
    }
  }

  lemma ResumedKeeps(s: State, a: S.Os, n: int)
    requires Refines(s, a)
    requires 0 <= n < |a.calls| && n != a.active
    requires 0 <= S.Current(a) < |s.procs| && 0 <= S.Top(a.calls, n) < |s.procs|
    requires s.procs[S.Top(a.calls, n)].terminal == n
    requires s.procs[S.Top(a.calls, n)].status == Run
    ensures var c := S.Current(a); var q := S.Top(a.calls, n);
            Refines(ResumedAt(Parked(s, c, c in a.waiting), q, q in a.waiting), a.(active := n))
  {
    var c := S.Current(a);
    var q := S.Top(a.calls, n);
    var s' := ResumedAt(Parked(s, c, c in a.waiting), q, q in a.waiting);
    NextFacts(s, a, n);
    OnProcessorKeeps(s, a, n, s');
    ResumedFrames(s, a, n);
    ChainsKept(s, a, s', a.(active := n));
  }

  lemma StartedFrames(s: State, a: S.Os, n: int)
    requires Refines(s, a)
    requires 0 <= n < |a.calls| && n != a.active
    requires 0 <= S.Current(a) < |s.procs| && 0 <= S.Top(a.calls, n) < |s.procs|
    requires s.procs[S.Top(a.calls, n)].terminal == n
    requires s.procs[S.Top(a.calls, n)].status == Sched
    ensures var c := S.Current(a); var q := S.Top(a.calls, n);
            Frames(Started(Parked(s, c, c in a.waiting), c, q), a.(active := n))
  {
    var c := S.Current(a);
    var q := S.Top(a.calls, n);
    var s3 := Parked(s, c, c in a.waiting);
    var s' := Started(s3, c, q);
    ParkedFrames(s, a);
    NextFacts(s, a, n);
    forall p | 0 <= p < |s.procs| && s.procs[p].pid >= 0 ensures FramesOf(s', a.(active := n), p, Running(s')) {
      assert FramesOf(s3, a, p, -1);
      TopIsChildless(s, a, a.active, p);
      assert s'.stacks[c][..|s3.stacks[c]|] == s3.stacks[c] == s3.stacks[c][..|s3.stacks[c]|];
    }
  }

  lemma StartedKeeps(s: State, a: S.Os, n: int)
    requires Refines(s, a)
    requires 0 <= n < |a.calls| && n != a.active
    requires 0 <= S.Current(a) < |s.procs| && 0 <= S.Top(a.calls, n) < |s.procs|
    requires s.procs[S.Top(a.calls, n)].terminal == n
    requires s.procs[S.Top(a.calls, n)].status == Sched
    ensures var c := S.Current(a); var q := S.Top(a.calls, n);
            Refines(Started(Parked(s, c, c in a.waiting), c, q), a.(active := n))
  {
    var c := S.Current(a);
    var q := S.Top(a.calls, n);
    var s' := Started(Parked(s, c, c in a.waiting), c, q);
    NextFacts(s, a, n);
    OnProcessorKeeps(s, a, n, s');
    StartedFrames(s, a, n);
    ChainsKept(s, a, s', a.(active := n));
  }

  lemma TimerElsewhere(s: State, a: S.Os)
    requires Refines(s, a)
    requires S.NextTerminal(a) != a.active
    ensures Refines(DoTimer(s).s, a.(active := S.NextTerminal(a)))
    ensures DoTimer(s).out == Nothing
  {
    var c := S.Current(a);
    var n := S.NextTerminal(a);
    TimerStep(s, a);
    NextFacts(s, a, n);
    var q := S.Top(a.calls, n);
    if s.procs[q].status == Sched {
      StartForm(s, c, q, c in a.waiting);
      StartedKeeps(s, a, n);
    } else {
      ResumeForm(s, c, q, c in a.waiting, q in a.waiting);
      ResumedKeeps(s, a, n);
    }
  }

  lemma TimerRefines(s: State, a: S.Os)
    requires Refines(s, a)
    ensures Refines(DoTimer(s).s, S.Step(a, Timer).a)
    ensures DoTimer(s).out == S.Step(a, Timer).out
  {
    var n := S.NextTerminal(a);
    if n == a.active {
      InAndOut(s, a);
      EnterFacts(s, a);
      CurrentFacts(s, a);
      NextMatches(s, a);
    } else {
      TimerElsewhere(s, a);
    }
  }
}
