/** execute() pushes a program on the calling terminal's stack; halt() pops it, or restarts
    the root shell in its own slot. */
module CallRefines {
  import opened Events
  import opened Kernel
  import opened Machine
  import opened Refinement
  import opened InterruptRefines
  import S = Sessions

  // ---------------------------------------------------------------- execute

  function NewPcb(b: Pcb, pid: int, parentPid: int, parentSp: StackPtr, terminal: int, counter: U32): Pcb {
    b.(pid := pid, parentPid := parentPid, parentSp := parentSp, terminal := terminal,
       status := Run, vidmap := false, lastAlarm := counter)
  }

  /** The state after process p of terminal t has started a program in slot f. */
  function Pushed(s: State, p: int, f: int, t: int): State
    requires Sized(s) && 0 <= p < |s.procs| && 0 <= f < |s.procs| && 0 <= t < |s.terms|
  {
    s.(procs := s.procs[f := NewPcb(s.procs[f], f, p, StackPtr(p, 2), t, s.counter)][p := s.procs[p].(status := Sleep)],
       home := s.home[f := f],
       stacks := s.stacks[p := [Entry(p), InRun]],
       cpu := User(f), userFrame := f + 2, esp0 := f,
       vid := VidmapEntry(false, s.terms[t].videoMem),
       terms := s.terms[t := s.terms[t].(vidmap := false)])
  }

  lemma PushForm(s: State, p: int, t: int)
    requires Sized(s) && 0 <= p < |s.procs| && 0 <= t < |s.terms|
    requires s.cpu == User(p) && s.esp0 == p && s.home[p] == p
    requires s.procs[p].pid == p && s.procs[p].terminal == t
    requires FreeFrom(s.procs, 0) < |s.procs|
    ensures var f := FreeFrom(s.procs, 0);
            DoExecute(s, true) == Result(Pushed(s, p, f, t), Spawned(f))
  {
    var f := FreeFrom(s.procs, 0);
    var s1 := Enter(s);
    assert s1 == s.(cpu := InKernel(p), stacks := s.stacks[p := [Entry(p)]]);
    var s2 := CreateChild(s1, f, p, t);
    var s3 := s2.(procs := s2.procs[p := s2.procs[p].(status := Sleep)]);
    assert DoExecute(s, true) == Result(RunImpl(s3, f, p), Spawned(f));
    PushedByRun(s, p, f, t, s3);
  }

  lemma PushedByRun(s: State, p: int, f: int, t: int, s3: State)
    requires Sized(s) && 0 <= p < |s.procs| && 0 <= f < |s.procs| && f != p && 0 <= t < |s.terms|
    requires s3 == s.(cpu := InKernel(p), stacks := s.stacks[p := [Entry(p)]], userFrame := f + 2, home := s.home[f := f],
                      procs := s.procs[f := s.procs[f].(pid := f, parentPid := p, terminal := t, status := Sched,
                                                        vidmap := false, lastAlarm := s.counter)]
                                      [p := s.procs[p].(status := Sleep)])
    ensures RunImpl(s3, f, p) == Pushed(s, p, f, t)
  {
    RunForm(s3, f, p, t, [Entry(p)]);
    assert RunImpl(s3, f, p).procs == Pushed(s, p, f, t).procs;
    assert s3.stacks[p := [Entry(p), InRun]] == Pushed(s, p, f, t).stacks;
  }

  /** process_run_impl for a program whose creator is at depth 1 of its kernel stack. */
  lemma RunForm(s: State, c: int, stack: int, t: int, recs: seq<Record>)
    requires Sized(s) && 0 <= c < |s.procs| && 0 <= stack < |s.procs| && 0 <= t < |s.terms|
    requires s.procs[c].pid == c && s.procs[c].terminal == t && !s.procs[c].vidmap && !s.cpu.Crashed?
    requires s.stacks[stack] == recs && recs == [Entry(stack)]
    ensures RunImpl(s, c, stack)
         == s.(procs := s.procs[c := s.procs[c].(status := Run, parentSp := StackPtr(stack, 2))],
               stacks := s.stacks[stack := [Entry(stack), InRun]],
               cpu := User(c), userFrame := c + 2, esp0 := c,
               vid := VidmapEntry(false, s.terms[t].videoMem),
               terms := s.terms[t := s.terms[t].(vidmap := false)])
  {
    assert recs + [InRun] == [Entry(stack), InRun];
  }

  ghost function PushedOs(a: S.Os, f: int): S.Os
    requires S.WellFormed(a) && 0 <= f < a.slots
  {
    a.(calls := a.calls[a.active := a.calls[a.active] + [f]], mapped := a.mapped - {f}, born := a.born[f := a.ticks])
  }

  lemma PushedChains(s: State, a: S.Os, f: int)
    requires Refines(s, a)
    requires 0 <= f < |s.procs| && s.procs[f].pid < 0
    requires 0 <= S.Current(a) < |s.procs|
    ensures Chains(Pushed(s, S.Current(a), f, a.active), PushedOs(a, f))
  {
    var s' := Pushed(s, S.Current(a), f, a.active);
    var a' := PushedOs(a, f);
    forall t, i | 0 <= t < |a'.calls| && 0 <= i < |a'.calls[t]| ensures Linked(s', a', t, i) {
      if i < |a.calls[t]| {
        assert Linked(s, a, t, i);
        assert Linked(s, a, a.active, |a.calls[a.active]| - 1);
      }
    }
  }

  lemma PushedCovered(s: State, a: S.Os, f: int)
    requires Refines(s, a)
    requires 0 <= f < |s.procs| && s.procs[f].pid < 0
    requires 0 <= S.Current(a) < |s.procs|
    ensures Covered(Pushed(s, S.Current(a), f, a.active), PushedOs(a, f))
  {
    var p := S.Current(a);
    var s' := Pushed(s, p, f, a.active);
    var a' := PushedOs(a, f);
    forall q | 0 <= q < |s'.procs| && s'.procs[q].pid >= 0
      ensures 0 <= s'.procs[q].terminal < |a'.calls| && q in a'.calls[s'.procs[q].terminal]
    {
      var t := s'.procs[q].terminal;
      if q == f { assert a'.calls[t][|a'.calls[t]| - 1] == f; }
      else if q == p { assert Linked(s, a, a.active, |a.calls[a.active]| - 1); }
    }
  }

  lemma PushedFrames(s: State, a: S.Os, f: int)
    requires Refines(s, a)
    requires 0 <= f < |s.procs| && s.procs[f].pid < 0
    requires 0 <= S.Current(a) < |s.procs|
    requires S.Current(a) !in a.waiting
    ensures Frames(Pushed(s, S.Current(a), f, a.active), PushedOs(a, f))
  {
    var p := S.Current(a);
    var s' := Pushed(s, p, f, a.active);
    forall q | 0 <= q < |s'.procs| && s'.procs[q].pid >= 0 ensures FramesOf(s', PushedOs(a, f), q, Running(s')) {
      if q != f {
        assert FramesOf(s, a, q, Running(s));
        TopIsChildless(s, a, a.active, q);
      } else {
        assert s'.stacks[p][..2] == [Entry(p), InRun];
      }
    }
  }

  lemma PushedRest(s: State, a: S.Os, f: int)
    requires Refines(s, a)
    requires 0 <= f < |s.procs| && s.procs[f].pid < 0
    requires 0 <= S.Current(a) < |s.procs|
    requires S.Current(a) !in a.waiting
    requires S.WellFormed(PushedOs(a, f))
    ensures var s' := Pushed(s, S.Current(a), f, a.active);
            Shape(s', PushedOs(a, f)) && Context(s', PushedOs(a, f)) && Clock(s', PushedOs(a, f))
  {
  }

  lemma PushedTerm(s: State, a: S.Os, f: int, t: int)
    requires Shape(s, a) && Chains(s, a) && Video(s, a)
    requires 0 <= f < |s.procs| && s.procs[f].pid < 0
    requires 0 <= S.Current(a) < |s.procs| && 0 <= t < |a.calls|
    requires S.WellFormed(PushedOs(a, f))
    ensures Pushed(s, S.Current(a), f, a.active).terms[t]
         == Term(if t == s.display then Vga else Backing(t), S.Top(PushedOs(a, f).calls, t) in PushedOs(a, f).mapped)
  {
    assert Linked(s, a, t, |a.calls[t]| - 1);
    assert s.terms[t] == Term(if t == s.display then Vga else Backing(t), S.Top(a.calls, t) in a.mapped);
  }

  lemma PushedVideo(s: State, a: S.Os, f: int)
    requires Shape(s, a) && Chains(s, a) && Video(s, a)
    requires 0 <= f < |s.procs| && s.procs[f].pid < 0
    requires 0 <= S.Current(a) < |s.procs|
    requires Shape(Pushed(s, S.Current(a), f, a.active), PushedOs(a, f))
    ensures Video(Pushed(s, S.Current(a), f, a.active), PushedOs(a, f))
  {
    forall t | 0 <= t < |a.calls|
      ensures Pushed(s, S.Current(a), f, a.active).terms[t]
           == Term(if t == s.display then Vga else Backing(t), S.Top(PushedOs(a, f).calls, t) in PushedOs(a, f).mapped)
    {
      PushedTerm(s, a, f, t);
    }
    assert S.Current(PushedOs(a, f)) == f;
  }

  lemma ExecuteRefines(s: State, a: S.Os, valid: bool)
    requires Refines(s, a)
    requires S.Enabled(a, Execute(valid))
    ensures Refines(DoExecute(s, valid).s, S.Step(a, Execute(valid)).a)
    ensures DoExecute(s, valid).out == S.Step(a, Execute(valid)).out
  {
    CurrentFacts(s, a);
    SameFreeSlot(s, a, 0);
    var f := FreeFrom(s.procs, 0);
    if valid && f < |s.procs| {
      PushRefines(s, a, f);
    } else {
      EnterFacts(s, a);
      InAndOut(s, a);
    }
  }

  lemma PushRefines(s: State, a: S.Os, f: int)
    requires Refines(s, a)
    requires S.Enabled(a, Execute(true))
    requires f == FreeFrom(s.procs, 0) < |s.procs|
    ensures Refines(DoExecute(s, true).s, PushedOs(a, f))
    ensures DoExecute(s, true).out == Spawned(f)
  {
    CurrentFacts(s, a);
    PushForm(s, S.Current(a), a.active);
    PushedRefines(s, a, f);
  }

  lemma PushedRefines(s: State, a: S.Os, f: int)
    requires Refines(s, a)
    requires 0 <= f < |s.procs| && s.procs[f].pid < 0
    requires 0 <= S.Current(a) < |s.procs|
    requires S.Current(a) !in a.waiting
    ensures Refines(Pushed(s, S.Current(a), f, a.active), PushedOs(a, f))
  {
    LiveIsOccupied(s, a, f);
    S.PushWellFormed(a, f);
    PushedChains(s, a, f);
    PushedCovered(s, a, f);
    PushedFrames(s, a, f);
    PushedRest(s, a, f);
    PushedVideo(s, a, f);
  }

  // ---------------------------------------------------------------- halt, with a parent

  /** The state after program c of terminal t has halted and its parent q has resumed. */
  function Popped(s: State, c: int, q: int, t: int): State
    requires Sized(s) && 0 <= c < |s.procs| && 0 <= q < |s.procs| && 0 <= t < |s.terms|
    requires 0 <= c < |s.stacks|
  {
    s.(procs := s.procs[c := s.procs[c].(pid := -1)][q := s.procs[q].(status := Run)],
       stacks := s.stacks[c := [Entry(c)]][q := []],
       cpu := User(q), userFrame := q + 2, esp0 := q,
       vid := VidmapEntry(s.procs[q].vidmap, s.terms[t].videoMem),
       terms := s.terms[t := s.terms[t].(vidmap := s.procs[q].vidmap)])
  }

  lemma PopForm(s: State, c: int, q: int, t: int, status: int)
    requires Sized(s) && 0 <= c < |s.procs| && 0 <= q < |s.procs| && q != c && 0 <= t < |s.terms|
    requires s.cpu == User(c) && s.esp0 == c && s.home[c] == c
    requires s.procs[c].parentPid == q && s.procs[q].pid == q && s.procs[q].terminal == t
    requires s.procs[c].parentSp == StackPtr(q, 2)
    requires 2 <= |s.stacks[q]| && s.stacks[q][..2] == [Entry(q), InRun]
    ensures DoHalt(s, status) == Result(Popped(s, c, q, t), Resumed(q, status))
  {
    var s1 := Enter(s);
    var s2 := s1.(procs := s1.procs[c := s1.procs[c].(pid := -1)]);
    var s3 := SetContext(s2.(procs := s2.procs[q := s2.procs[q].(status := Run)]), q);
    var recs := s.stacks[q];
    assert s3.stacks[q] == recs;
    assert recs[..2][1] == InRun;
    assert recs[..1] == recs[..2][..1] == [Entry(q)];
    assert s3.procs == Popped(s, c, q, t).procs;
    var s4 := ReturnThrough(s3, StackPtr(q, 2), InRun);
    assert s4.stacks[q] == [Entry(q)];
    assert Leave(s4).stacks == Popped(s, c, q, t).stacks;
  }

  ghost function PoppedOs(a: S.Os): S.Os
    requires S.WellFormed(a)
  {
    a.(calls := a.calls[a.active := a.calls[a.active][..|a.calls[a.active]| - 1]])
  }

  /** The halting program and its parent. */
  lemma ParentFacts(s: State, a: S.Os)
    requires Refines(s, a)
    requires |a.calls[a.active]| > 1
    ensures var st := a.calls[a.active];
            var c := S.Current(a); var q := st[|st| - 2];
            && 0 <= c < |s.procs| && 0 <= q < |s.procs| && q != c
            && s.procs[c].parentPid == q && s.procs[q].pid == q && s.procs[q].terminal == a.active
            && s.procs[q].status == Sleep
            && FramesOf(s, a, c, c)
            && q !in a.waiting
  {
    var n := |a.calls[a.active]|;
    CurrentFacts(s, a);
    assert Linked(s, a, a.active, n - 1);
    assert Linked(s, a, a.active, n - 2);
    assert FramesOf(s, a, S.Current(a), Running(s));
  }

  lemma PoppedChains(s: State, a: S.Os, c: int, q: int)
    requires Refines(s, a)
    requires |a.calls[a.active]| > 1
    requires c == S.Current(a) && q == a.calls[a.active][|a.calls[a.active]| - 2]
    requires 0 <= c < |s.procs| && 0 <= q < |s.procs| && q != c
    ensures Chains(Popped(s, c, q, a.active), PoppedOs(a))
  {
    var s' := Popped(s, c, q, a.active);
    var a' := PoppedOs(a);
    var n := |a.calls[a.active]|;
    forall t, i | 0 <= t < |a'.calls| && 0 <= i < |a'.calls[t]| ensures Linked(s', a', t, i) {
      assert Linked(s, a, t, i);
      assert Linked(s, a, a.active, n - 1);
      assert Linked(s, a, a.active, n - 2);
      assert S.Distinct(a.calls[a.active]);
    }
  }

  lemma PoppedCovered(s: State, a: S.Os, c: int, q: int)
    requires Refines(s, a)
    requires |a.calls[a.active]| > 1
    requires c == S.Current(a) && q == a.calls[a.active][|a.calls[a.active]| - 2]
    requires 0 <= c < |s.procs| && 0 <= q < |s.procs| && q != c
    ensures Covered(Popped(s, c, q, a.active), PoppedOs(a))
  {
    var s' := Popped(s, c, q, a.active);
    var a' := PoppedOs(a);
    forall p | 0 <= p < |s'.procs| && s'.procs[p].pid >= 0
      ensures 0 <= s'.procs[p].terminal < |a'.calls| && p in a'.calls[s'.procs[p].terminal]
    {
      assert p != c;
      assert Linked(s, a, a.active, |a.calls[a.active]| - 2);
      var t := s.procs[p].terminal;
      var i :| 0 <= i < |a.calls[t]| && a.calls[t][i] == p;
      assert a'.calls[t][i] == p;
    }
  }

  lemma PoppedFrames(s: State, a: S.Os, c: int, q: int)
    requires Refines(s, a)
    requires |a.calls[a.active]| > 1
    requires c == S.Current(a) && q == a.calls[a.active][|a.calls[a.active]| - 2]
    requires 0 <= c < |s.procs| && 0 <= q < |s.procs| && q != c
    requires c !in a.waiting
    ensures Frames(Popped(s, c, q, a.active), PoppedOs(a))
  {
    var s' := Popped(s, c, q, a.active);
    forall p | 0 <= p < |s'.procs| && s'.procs[p].pid >= 0 ensures FramesOf(s', PoppedOs(a), p, Running(s')) {
      assert FramesOf(s, a, p, Running(s));
      TopIsChildless(s, a, a.active, p);
      if s.procs[p].parentPid == q { OnlyChild(s, a, p); }
    }
  }

  /** The current program is its parent's only live child. */
  lemma OnlyChild(s: State, a: S.Os, p: int)
    requires Refines(s, a)
    requires |a.calls[a.active]| > 1
    requires 0 <= p < |s.procs| && s.procs[p].pid >= 0
    requires s.procs[p].parentPid == a.calls[a.active][|a.calls[a.active]| - 2]
    ensures p == S.Current(a)
  {
    var n := |a.calls[a.active]|;
    var t := s.procs[p].terminal;
    var i :| 0 <= i < |a.calls[t]| && a.calls[t][i] == p;
    assert Linked(s, a, t, i);
    assert Linked(s, a, a.active, n - 2);
    assert Linked(s, a, t, i - 1);
    assert S.Distinct(a.calls[a.active]);
  }

  lemma PoppedRest(s: State, a: S.Os, c: int, q: int)
    requires Refines(s, a)
    requires |a.calls[a.active]| > 1
    requires c == S.Current(a) && q == a.calls[a.active][|a.calls[a.active]| - 2]
    requires 0 <= c < |s.procs| && 0 <= q < |s.procs| && q != c
    requires s.procs[q].pid == q && q !in a.waiting
    requires S.WellFormed(PoppedOs(a))
    ensures var s' := Popped(s, c, q, a.active);
            Shape(s', PoppedOs(a)) && Context(s', PoppedOs(a)) && Clock(s', PoppedOs(a))
  {
  }

  lemma PoppedTerm(s: State, a: S.Os, c: int, q: int, t: int)
    requires Shape(s, a) && Video(s, a)
    requires |a.calls[a.active]| > 1 && 0 <= t < |s.terms|
    requires c == S.Current(a) && q == a.calls[a.active][|a.calls[a.active]| - 2]
    requires 0 <= c < |s.procs| && 0 <= q < |s.procs| && q != c
    requires s.procs[q].pid == q && S.WellFormed(PoppedOs(a))
    ensures Popped(s, c, q, a.active).terms[t]
         == Term(if t == s.display then Vga else Backing(t), S.Top(PoppedOs(a).calls, t) in a.mapped)
  {
    assert s.terms[t] == Term(if t == s.display then Vga else Backing(t), S.Top(a.calls, t) in a.mapped);
  }

  lemma PoppedVideo(s: State, a: S.Os, c: int, q: int)
    requires Shape(s, a) && Video(s, a)
    requires |a.calls[a.active]| > 1
    requires c == S.Current(a) && q == a.calls[a.active][|a.calls[a.active]| - 2]
    requires 0 <= c < |s.procs| && 0 <= q < |s.procs| && q != c
    requires s.procs[q].pid == q
    requires Shape(Popped(s, c, q, a.active), PoppedOs(a))
    ensures Video(Popped(s, c, q, a.active), PoppedOs(a))
  {
    forall t | 0 <= t < |s.terms|
      ensures Popped(s, c, q, a.active).terms[t]
           == Term(if t == s.display then Vga else Backing(t), S.Top(PoppedOs(a).calls, t) in a.mapped)
    {
      PoppedTerm(s, a, c, q, t);
    }
    assert S.Current(PoppedOs(a)) == q;
  }

  lemma PopRefines(s: State, a: S.Os, status: int)
    requires Refines(s, a)
    requires S.Enabled(a, Halt(status))
    requires |a.calls[a.active]| > 1
    ensures Refines(DoHalt(s, status).s, PoppedOs(a))
    ensures DoHalt(s, status).out == Resumed(a.calls[a.active][|a.calls[a.active]| - 2], status)
  {
    var c := S.Current(a);
    var q := a.calls[a.active][|a.calls[a.active]| - 2];
    ParentFacts(s, a);
    PopForm(s, c, q, a.active, status);
    S.PopWellFormed(a);
    PoppedChains(s, a, c, q);
    PoppedCovered(s, a, c, q);
    PoppedFrames(s, a, c, q);
    PoppedRest(s, a, c, q);
    PoppedVideo(s, a, c, q);
  }

  // ---------------------------------------------------------------- halt of a root shell

  /** The state after the root shell c of terminal t has been replaced by a fresh one. */
  function Restarted(s: State, c: int, t: int): State
    requires Sized(s) && 0 <= c < |s.procs| && 0 <= t < |s.terms|
  {
    s.(procs := s.procs[c := NewPcb(s.procs[c], c, -1, StackPtr(c, 2), t, s.counter)],
       home := s.home[c := c],
       stacks := s.stacks[c := [Entry(c), InRun]],
       cpu := User(c), userFrame := c + 2, esp0 := c,
       vid := VidmapEntry(false, s.terms[t].videoMem),
       terms := s.terms[t := s.terms[t].(vidmap := false)])
  }

  /** Every slot below NUM_TERMINALS holds a root shell, so a halting root is the lowest free slot. */
  lemma RootIsLowest(s: State, a: S.Os, c: int)
    requires Refines(s, a)
    requires |a.calls[a.active]| == 1 && c == S.Current(a)
    requires 0 <= c < |s.procs|
    ensures FreeFrom(s.procs[c := s.procs[c].(pid := -1)], 0) == c
  {
    var procs := s.procs[c := s.procs[c].(pid := -1)];
    assert procs[c].pid == -1;
    assert c == S.RootSlot(a.active, |a.calls|);
    forall f | 0 <= f < c ensures procs[f].pid >= 0 {
      var t := if f == |a.calls| - 1 then 0 else f + 1;
      assert a.calls[t][0] == S.RootSlot(t, |a.calls|) == f;
      assert Linked(s, a, t, 0);
    }
  }

  lemma RestartForm(s: State, c: int, t: int, status: int)
    requires Sized(s) && 0 <= c < |s.procs| && 0 <= t < |s.terms|
    requires s.cpu == User(c) && s.esp0 == c && s.home[c] == c && s.shellValid
    requires s.procs[c].parentPid == -1 && s.procs[c].terminal == t
    requires FreeFrom(s.procs[c := s.procs[c].(pid := -1)], 0) == c
    ensures DoHalt(s, status) == Result(Restarted(s, c, t), Respawned(c))
  {
    var s1 := Enter(s);
    var s2 := s1.(procs := s1.procs[c := s1.procs[c].(pid := -1)]);
    assert s2.procs == s.procs[c := s.procs[c].(pid := -1)];
    var s3 := CreateChild(s2, c, -1, t);
    RunForm(s3, c, c, t, [Entry(c)]);
    assert RunImpl(s3, c, c).procs == Restarted(s, c, t).procs;
    assert RunImpl(s3, c, c).stacks == Restarted(s, c, t).stacks;
  }

  ghost function RestartedOs(a: S.Os): S.Os
    requires S.WellFormed(a)
  {
    a.(mapped := a.mapped - {S.Current(a)}, born := a.born[S.Current(a) := a.ticks])
  }

  lemma RestartedChains(s: State, a: S.Os, c: int)
    requires Refines(s, a)
    requires |a.calls[a.active]| == 1 && c == S.Current(a)
    requires 0 <= c < |s.procs|
    ensures var s' := Restarted(s, c, a.active);
            Chains(s', RestartedOs(a)) && Covered(s', RestartedOs(a))
  {
    var s' := Restarted(s, c, a.active);
    var a' := RestartedOs(a);
    assert Linked(s, a, a.active, 0);
    forall t, i | 0 <= t < |a'.calls| && 0 <= i < |a'.calls[t]| ensures Linked(s', a', t, i) {
      assert Linked(s, a, t, i);
    }
  }

  lemma RestartedFrames(s: State, a: S.Os, c: int)
    requires Refines(s, a)
    requires |a.calls[a.active]| == 1 && c == S.Current(a)
    requires 0 <= c < |s.procs| && c !in a.waiting
    ensures Frames(Restarted(s, c, a.active), RestartedOs(a))
  {
    var s' := Restarted(s, c, a.active);
    assert Linked(s, a, a.active, 0);
    forall p | 0 <= p < |s'.procs| && s'.procs[p].pid >= 0 ensures FramesOf(s', RestartedOs(a), p, Running(s')) {
      assert FramesOf(s, a, p, Running(s));
      TopIsChildless(s, a, a.active, p);
    }
  }

  lemma RestartedRest(s: State, a: S.Os, c: int)
    requires Refines(s, a)
    requires |a.calls[a.active]| == 1 && c == S.Current(a)
    requires 0 <= c < |s.procs| && c !in a.waiting
    ensures var s' := Restarted(s, c, a.active);
            Shape(s', RestartedOs(a)) && Context(s', RestartedOs(a)) && Clock(s', RestartedOs(a))
  {
    assert Linked(s, a, a.active, 0);
  }

  lemma RestartedVideo(s: State, a: S.Os, c: int)
    requires Refines(s, a)
    requires |a.calls[a.active]| == 1 && c == S.Current(a)
    requires 0 <= c < |s.procs|
    requires Shape(Restarted(s, c, a.active), RestartedOs(a))
    ensures Video(Restarted(s, c, a.active), RestartedOs(a))
  {
    forall t | 0 <= t < |a.calls| && t != a.active ensures S.Top(a.calls, t) != c {
      assert S.Top(a.calls, t) in a.calls[t] && c in a.calls[a.active];
    }
  }

  lemma RestartRefines(s: State, a: S.Os, status: int)
    requires Refines(s, a)
    requires S.Enabled(a, Halt(status))
    requires |a.calls[a.active]| == 1
    ensures Refines(DoHalt(s, status).s, RestartedOs(a))
    ensures DoHalt(s, status).out == Respawned(S.Current(a))
  {
    var c := S.Current(a);
    CurrentFacts(s, a);
    assert Linked(s, a, a.active, 0);
    RootIsLowest(s, a, c);
    RestartForm(s, c, a.active, status);
    RestartedChains(s, a, c);
    RestartedFrames(s, a, c);
    RestartedRest(s, a, c);
    RestartedVideo(s, a, c);
  }

  lemma HaltRefines(s: State, a: S.Os, status: int)
    requires Refines(s, a)
    requires S.Enabled(a, Halt(status))
    ensures Refines(DoHalt(s, status).s, S.Step(a, Halt(status)).a)
    ensures DoHalt(s, status).out == S.Step(a, Halt(status)).out
  {
    if |a.calls[a.active]| > 1 {
      assert S.Step(a, Halt(status)).a == PoppedOs(a);
      PopRefines(s, a, status);
    } else {
      assert S.Step(a, Halt(status)).a == RestartedOs(a);
      RestartRefines(s, a, status);
    }
  }
}
