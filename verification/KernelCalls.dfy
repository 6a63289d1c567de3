/** What each system call and interrupt does to the process table, in every reachable state. */
module KernelCalls {
  import opened Events
  import opened Kernel
  import opened Refinement
  import opened KernelTheorems
  import opened CallRefines
  import opened InterruptRefines
  import opened SwitchRefines
  import opened KernelFacts
  import S = Sessions

  /** A program in user mode, and what Enter makes of it. */
  lemma UserFacts(s: State, p: int) returns (a: S.Os)
    requires Reachable(s) && s.cpu == User(p)
    ensures Refines(s, a) && S.Current(a) == p && p !in a.waiting && 0 <= p < |s.procs|
    ensures s.procs[p].pid == p && s.procs[p].terminal == a.active && s.esp0 == p && s.home[p] == p
  {
    a := ReachableRefines(s);
    CurrentFacts(s, a);
  }

  // ---------------------------------------------------------------- execute

  /** The lowest free slot c has become a running child of p on p's terminal, with its own frame and no
      video page; p sleeps; no other process is touched. */
  ghost predicate Spawns(s: State, p: int, c: int, r: State) {
    && 0 <= c < |s.procs| == |r.procs| && 0 <= p < |s.procs|
    && s.procs[c].pid < 0 && (forall q :: 0 <= q < c ==> s.procs[q].pid >= 0)
    && r.cpu == User(c) && r.userFrame == c + 2 && r.esp0 == c && !r.vid.present
    && r.procs[c].pid == c && r.procs[c].parentPid == p && r.procs[c].terminal == s.procs[p].terminal
    && r.procs[c].status == Run && !r.procs[c].vidmap && r.procs[c].lastAlarm == s.counter
    && r.procs[p] == s.procs[p].(status := Sleep)
    && forall q :: 0 <= q < |s.procs| && q != c && q != p ==> r.procs[q] == s.procs[q]
  }

  lemma PushedSpawns(s: State, p: int, c: int, t: int, r: State)
    requires Sized(s) && 0 <= p < |s.procs| && 0 <= t < |s.terms| && s.procs[p].terminal == t && s.procs[p].pid >= 0
    requires c == FreeFrom(s.procs, 0) < |s.procs| && r == Pushed(s, p, c, t)
    ensures Spawns(s, p, c, r)
  {
  }

  lemma Executes(s: State, a: S.Os, p: int, valid: bool, r: Result)
    requires Refines(s, a) && S.Current(a) == p && s.cpu == User(p) && r == DoExecute(s, valid)
    requires 0 <= p < |s.procs| && s.procs[p].terminal == a.active
    ensures valid && FreeFrom(s.procs, 0) < |s.procs| ==> r.out.Spawned? && Spawns(s, p, r.out.child, r.s)
    ensures !(valid && FreeFrom(s.procs, 0) < |s.procs|) ==> r.out == Failed
  {
    var c := FreeFrom(s.procs, 0);
    EnterFacts(s, a);
    if valid && c < |s.procs| {
      PushForm(s, p, a.active);
      PushedSpawns(s, p, c, a.active, r.s);
    }
  }

  /** execute() fails exactly if the command is not valid or every slot is taken. */
  lemma ExecuteMeans(s: State, p: int, valid: bool, r: Result)
    requires Reachable(s) && s.cpu == User(p) && r == Step(s, Execute(valid))
    ensures r.out == Failed <==> !valid || forall q :: 0 <= q < |s.procs| ==> s.procs[q].pid >= 0
    ensures r.out != Failed ==> r.out.Spawned? && Spawns(s, p, r.out.child, r.s)
  {
    var a := UserFacts(s, p);
    assert r == DoExecute(s, valid);
    Executes(s, a, p, valid, r);
  }

  // ---------------------------------------------------------------- halt

  /** c's slot is free and its parent q runs again. */
  ghost predicate Returns(s: State, c: int, q: int, r: State) {
    && 0 <= c < |s.procs| == |r.procs| && 0 <= q < |s.procs| && q != c
    && r.cpu == User(q) && r.userFrame == q + 2 && r.esp0 == q && r.vid.present == s.procs[q].vidmap
    && r.procs[c].pid == -1 && r.procs[q] == s.procs[q].(status := Run)
    && forall o :: 0 <= o < |s.procs| && o != c && o != q ==> r.procs[o] == s.procs[o]
  }

  /** The root shell c has been replaced, in its own slot and on its own terminal, by a new one with no
      video page. */
  ghost predicate Restarts(s: State, c: int, r: State) {
    && 0 <= c < |s.procs| == |r.procs|
    && r.cpu == User(c) && r.userFrame == c + 2 && r.esp0 == c && !r.vid.present
    && r.procs[c].pid == c && r.procs[c].parentPid == -1 && r.procs[c].terminal == s.procs[c].terminal
    && r.procs[c].status == Run && !r.procs[c].vidmap && r.procs[c].lastAlarm == s.counter
    && forall o :: 0 <= o < |s.procs| && o != c ==> r.procs[o] == s.procs[o]
  }

  lemma PoppedReturns(s: State, c: int, q: int, t: int, r: State)
    requires Sized(s) && 0 <= c < |s.procs| && 0 <= q < |s.procs| && q != c && 0 <= t < |s.terms| && r == Popped(s, c, q, t)
    ensures Returns(s, c, q, r)
  {
  }

  lemma RestartedRestarts(s: State, c: int, t: int, r: State)
    requires Sized(s) && 0 <= c < |s.procs| && 0 <= t < |s.terms| && s.procs[c].terminal == t && r == Restarted(s, c, t)
    ensures Restarts(s, c, r)
  {
  }

  lemma HaltsToParent(s: State, a: S.Os, p: int, q: int, status: int, r: Result)
    requires Refines(s, a) && S.Current(a) == p && s.cpu == User(p) && r == DoHalt(s, status)
    requires 0 <= p < |s.procs| && s.home[p] == p && |a.calls[a.active]| > 1 && q == a.calls[a.active][|a.calls[a.active]| - 2]
    ensures s.procs[p].parentPid == q && r.out == Resumed(q, status) && Returns(s, p, q, r.s)
  {
    ParentFacts(s, a);
    PopForm(s, p, q, a.active, status);
    PoppedReturns(s, p, q, a.active, r.s);
  }

  lemma HaltsRoot(s: State, a: S.Os, p: int, status: int, r: Result)
    requires Refines(s, a) && S.Current(a) == p && s.cpu == User(p) && r == DoHalt(s, status)
    requires 0 <= p < |s.procs| && s.home[p] == p && |a.calls[a.active]| == 1
    ensures s.procs[p].parentPid == -1 && r.out == Respawned(p) && Restarts(s, p, r.s)
  {
    assert Linked(s, a, a.active, 0);
    RootIsLowest(s, a, p);
    RestartForm(s, p, a.active, status);
    RestartedRestarts(s, p, a.active, r.s);
  }

  lemma Halts(s: State, a: S.Os, p: int, status: int, r: Result)
    requires Refines(s, a) && S.Current(a) == p && s.cpu == User(p) && r == DoHalt(s, status)
    requires 0 <= p < |s.procs| && s.home[p] == p
    ensures s.procs[p].parentPid >= 0 ==> r.out == Resumed(s.procs[p].parentPid, status) && Returns(s, p, s.procs[p].parentPid, r.s)
    ensures s.procs[p].parentPid < 0 ==> r.out == Respawned(p) && Restarts(s, p, r.s)
  {
    var n := |a.calls[a.active]|;
    if n > 1 { HaltsToParent(s, a, p, a.calls[a.active][n - 2], status, r); } else { HaltsRoot(s, a, p, status, r); }
  }

  /** halt() frees the caller's slot and wakes its parent, which gets the status; a root shell is replaced. */
  lemma HaltMeans(s: State, p: int, status: int, r: Result)
    requires Reachable(s) && s.cpu == User(p) && r == Step(s, Halt(status))
    ensures 0 <= p < |s.procs|
    ensures s.procs[p].parentPid >= 0 ==> r.out == Resumed(s.procs[p].parentPid, status) && Returns(s, p, s.procs[p].parentPid, r.s)
    ensures s.procs[p].parentPid < 0 ==> r.out == Respawned(p) && Restarts(s, p, r.s)
  {
    var a := UserFacts(s, p);
    assert r == DoHalt(s, status);
    Halts(s, a, p, status, r);
  }

  // ---------------------------------------------------------------- vidmap and display

  /** vidmap() gives the caller a present video page on its own terminal's screen and marks it so; with a
      bad address it fails.  Nothing else changes. */
  lemma VidmapMeans(s: State, p: int, valid: bool)
    requires Reachable(s) && s.cpu == User(p)
    ensures var r := Step(s, Vidmap(valid));
            && 0 <= p < |s.procs| == |s.stacks| && 0 <= s.procs[p].terminal < |s.terms| && r.out == (if valid then Nothing else Failed)
            && var t := s.procs[p].terminal;
               r.s == (if valid then s.(procs := s.procs[p := s.procs[p].(vidmap := true)], terms := s.terms[t := s.terms[t].(vidmap := true)],
                                        vid := VidmapEntry(true, s.terms[t].videoMem))
                       else s).(stacks := s.stacks[p := []])
  {
    var a := UserFacts(s, p);
    EnterFacts(s, a);
    LeaveCommutes(s, a, Enter(s));
  }

  /** Terminal n is on the display, every other on its own page, and no process is touched. */
  ghost predicate Displays(s: State, n: int, r: State) {
    && r.display == n && r.procs == s.procs && r.cpu == s.cpu && r.userFrame == s.userFrame && r.esp0 == s.esp0
    && |r.terms| == |s.terms|
    && forall t :: 0 <= t < |s.terms| ==> r.terms[t] == s.terms[t].(videoMem := if t == n then Vga else Backing(t))
  }

  lemma DisplayedDisplays(s: State, a: S.Os, n: int, d: State, r: State)
    requires Shape(s, a) && Video(s, a) && 0 <= n < |s.terms|
    requires d == s.(stacks := d.stacks) && r == (if n == s.display then d else Displayed(d, n, a.active))
    ensures Displays(s, n, r)
  {
  }

  lemma SwitchesDisplay(s: State, a: S.Os, n: int, r: State)
    requires Refines(s, a) && 0 <= n < |s.terms| && r == DoSetDisplay(s, n).s
    ensures Displays(s, n, r)
  {
    if n == s.display { DisplaySame(s, a); } else { DisplayStep(s, a, n); }
    DisplayedDisplays(s, a, n, Settled(s, a), r);
  }

  lemma AlwaysEnabled(s: State, a: S.Os, n: int)
    requires Refines(s, a) && 0 <= n < |s.terms|
    ensures Step(s, SetDisplay(n)) == DoSetDisplay(s, n)
  {
    assert !s.cpu.Crashed?;
  }

  /** ALT-F switches the display, whoever runs. */
  lemma DisplayMeans(s: State, n: int, r: State)
    requires Reachable(s) && 0 <= n < |s.terms| && r == Step(s, SetDisplay(n)).s
    ensures Displays(s, n, r)
  {
    var a := ReachableRefines(s);
    AlwaysEnabled(s, a, n);
    SwitchesDisplay(s, a, n, r);
  }

  // ---------------------------------------------------------------- the scheduler

  /** The slot j places after cur, going round a table of n. */
  function Ahead(n: nat, cur: int, j: nat): int { if cur + j < n then cur + j else cur + j - n }

  lemma {:induction false} NextFromMeans(procs: seq<Pcb>, cur: int, i: nat) returns (k: nat)
    requires 0 <= cur < |procs| && 0 < i <= |procs|
    ensures i <= k <= |procs| && NextFrom(procs, cur, i) == Ahead(|procs|, cur, k)
    ensures k < |procs| ==> Runnable(procs, Ahead(|procs|, cur, k))
    ensures forall j: nat :: i <= j < k ==> !Runnable(procs, Ahead(|procs|, cur, j))
    decreases |procs| - i
  {
    k := i;
    if i < |procs| {
      Around(|procs|, cur, i);
      if !Runnable(procs, Ahead(|procs|, cur, i)) { k := NextFromMeans(procs, cur, i + 1); }
    }
  }

  /** q is the first process after cur, going round the table, that is alive and not asleep. */
  ghost predicate FirstAwake(procs: seq<Pcb>, cur: int, k: nat, q: int) {
    && 0 < k <= |procs| && q == Ahead(|procs|, cur, k)
    && 0 <= q < |procs| && procs[q].pid >= 0 && procs[q].status != Sleep
    && forall j: nat :: 0 < j < k && 0 <= Ahead(|procs|, cur, j) < |procs| ==>
         procs[Ahead(|procs|, cur, j)].pid < 0 || procs[Ahead(|procs|, cur, j)].status == Sleep
  }

  lemma NextIsFirst(procs: seq<Pcb>, cur: int) returns (k: nat)
    requires 0 <= cur < |procs| && Runnable(procs, cur)
    ensures FirstAwake(procs, cur, k, Next(procs, cur))
  {
    k := NextFromMeans(procs, cur, 1);
    assert forall j: nat :: 0 < j < k ==> !Runnable(procs, Ahead(|procs|, cur, j));
  }

  /** A timer interrupt gives the processor to the first process after the current one that is awake. */
  lemma TimerMeans(s: State) returns (k: nat)
    requires Reachable(s)
    ensures FirstAwake(s.procs, Running(s), k, Running(Step(s, Timer).s))
  {
    var a := ReachableRefines(s);
    CurrentFacts(s, a);
    k := NextIsFirst(s.procs, Running(s));
    GoesToNext(s, a);
  }

  lemma GoesToNext(s: State, a: S.Os)
    requires Refines(s, a)
    ensures Running(Step(s, Timer).s) == Next(s.procs, Running(s))
  {
    StepRefines(s, a, Timer);
    NextMatches(s, a);
  }

  // ---------------------------------------------------------------- blocking

  lemma Blocks(s: State, a: S.Os, p: int)
    requires Refines(s, a) && S.Current(a) == p && s.cpu == User(p) && 0 <= p < |s.procs|
    ensures Step(s, Block).s == s.(cpu := InKernel(p), stacks := s.stacks[p := [Entry(p), InWait]])
  {
    EnterFacts(s, a);
    assert [Entry(p)] + [InWait] == [Entry(p), InWait];
    assert s.stacks[p := [Entry(p)]][p := [Entry(p), InWait]] == s.stacks[p := [Entry(p), InWait]];
  }

  lemma Wakes(s: State, p: int, w: State)
    requires Sized(s) && 0 <= p < |s.procs| && s.cpu == User(p)
    requires w == s.(cpu := InKernel(p), stacks := s.stacks[p := [Entry(p), InWait]])
    ensures Step(w, Wake).s == s.(stacks := s.stacks[p := []])
  {
    assert [Entry(p), InWait][..1] == [Entry(p)];
    assert s.stacks[p := [Entry(p), InWait]][p := [Entry(p)]][p := []] == s.stacks[p := []];
  }

  /** A read that blocks and is woken again leaves its program where it was. */
  lemma BlockThenWake(s: State, p: int)
    requires Reachable(s) && s.cpu == User(p)
    ensures 0 <= p < |s.stacks|
    ensures Step(s, Block).s == s.(cpu := InKernel(p), stacks := s.stacks[p := [Entry(p), InWait]])
    ensures Step(Step(s, Block).s, Wake).s == s.(stacks := s.stacks[p := []])
  {
    var a := UserFacts(s, p);
    Blocks(s, a, p);
    Wakes(s, p, Step(s, Block).s);
  }
}
