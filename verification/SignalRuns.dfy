/** One signal from start to finish, as a run. */
module SignalRuns {
  import opened Machine
  import opened UserMemory
  import opened SignalFrames
  import opened Signals
  import opened SignalTheorems

  /** Signal n has a handler, the user stack has room, and no lower-numbered signal is in the way. */
  ghost predicate Expecting(p: Proc, n: int) {
    && Inv(p) && 2 <= n < 5 && Deliverable(p.regs.esp)
    && p.sigs[n].handler != 0 && !p.sigs[n].masked
    && forall i :: 0 <= i < n ==> !Acts(p.sigs[i])
  }

  ghost predicate Idle(t: Table) { forall i :: 0 <= i < 5 ==> !t[i].pending }

  lemma RaisedIsLowest(p: Proc, n: int, t: Table)
    requires Expecting(p, n) && t == RaiseIn(p.sigs, n)
    ensures Lowest(t, 0) == n && HasHandler(t[n])
  {
    assert forall i :: 0 <= i < n ==> t[i] == p.sigs[i];
    assert Acts(t[n]);
  }

  /** q is p with the handler of n entered. */
  ghost predicate Entered(p: Proc, n: int, q: Proc)
    requires 0 <= n < 5 && Deliverable(p.regs.esp)
  {
    var base := p.regs.esp - 108;
    && q.regs.esp == base && q.mem == DeliverMem(p.mem, p.regs, n)
    && q.frames == p.frames + [Live(n, base, p.regs)]
    && forall s :: 0 <= s < 5 && s != n && q.sigs[s].pending ==> p.sigs[s].pending
  }

  lemma InterruptDelivers(p1: Proc, n: int)
    requires Lowest(p1.sigs, 0) == n < 5 && HasHandler(p1.sigs[n]) && Deliverable(p1.regs.esp)
    ensures Step(p1, Interrupt).outcome == Handler(n) && Entered(p1, n, Step(p1, Interrupt).p)
    ensures !Step(p1, Interrupt).p.sigs[n].pending
  {
    assert Step(p1, Interrupt) == Leave(p1);
    LeaveDelivers(p1, n);
  }

  /** A raised signal is delivered by the next interrupt. */
  lemma DeliveredAtOnce(p: Proc, n: int, p1: Proc)
    requires Expecting(p, n) && p1 == p.(sigs := RaiseIn(p.sigs, n))
    ensures Step(p1, Interrupt).outcome == Handler(n) && Entered(p, n, Step(p1, Interrupt).p)
    ensures !Step(p1, Interrupt).p.sigs[n].pending
  {
    RaisedIsLowest(p, n, p1.sigs);
    InterruptDelivers(p1, n);
    EnteredSame(p, n, p1, Step(p1, Interrupt).p);
  }

  lemma EnteredSame(p: Proc, n: int, p1: Proc, q: Proc)
    requires 0 <= n < 5 && Deliverable(p.regs.esp) && p1 == p.(sigs := RaiseIn(p.sigs, n)) && Entered(p1, n, q)
    ensures Entered(p, n, q)
  {
  }

  /** What the handler leaves behind when it executes ret: anything, but for the frames. */
  ghost predicate Returning(q: Proc, m: Page, h: Regs) {
    && Respects(q, m) && h.esp == q.regs.esp
    && USER_PAGE_START <= h.esp && h.esp + 88 < USER_PAGE_END && Load(m, h.esp) == h.esp + 88
  }

  /** The registers at the trap. */
  function AtTrap(m: Page, h: Regs): Regs
    requires USER_PAGE_START <= h.esp && h.esp + 4 <= USER_PAGE_END
  {
    Exec(m, Exec(m, Exec(m, Exec(m, Ret(m, h)))))
  }

  lemma TrapReached(n: int, m: Page, h: Regs, base: U32, ctx: Regs)
    requires LiveIntact(m, Live(n, base, ctx)) && h.esp == base && Load(m, base) == base + 88
    ensures AtTrap(m, h) == h.(eax := SYS_SIGRETURN, ebx := n, ecx := base + 8, eip := base + 105, esp := base + 4)
  {
    HandlerReturns(m, base, n, ctx, h);
  }

  /** The state after sigreturn, before other signals are looked at. */
  lemma Unwound(p: Proc, n: int, q: Proc, base: U32)
    requires 0 <= n < 5 && q.frames == p.frames + [Live(n, base, p.regs)] && LiveIntact(q.mem, Live(n, base, p.regs))
    requires q.regs.eax == SYS_SIGRETURN && q.regs.ebx == n && q.regs.ecx == base + 8
    ensures Before(q, LinkageTrap)
         == Proc(q.sigs[n := q.sigs[n].(masked := false)], q.mem, Restored(p.regs, q.regs), p.frames)
  {
    SigreturnRestores(q, Live(n, base, p.regs));
    assert q.frames[..|q.frames| - 1] == p.frames;
  }

  /** Where the context of p is after x: loaded, or saved in the newest frame if another signal that
      was waiting has been delivered in the same interrupt. */
  ghost predicate Resumes(p: Proc, x: Result) {
    && (x.outcome == Nothing ==> SameContext(x.p.regs, p.regs) && x.p.frames == p.frames)
    && (x.outcome.Handler? ==>
          && |x.p.frames| == |p.frames| + 1 && x.p.frames[..|p.frames|] == p.frames
          && x.p.frames[|p.frames|].signum == x.outcome.signum && SameContext(x.p.frames[|p.frames|].ctx, p.regs))
  }

  lemma LeaveResumes(p: Proc, b: Proc)
    requires b.frames == p.frames && SameContext(b.regs, p.regs)
    ensures Resumes(p, Leave(b))
    ensures Idle(b.sigs) ==> Leave(b).outcome == Nothing
    ensures Leave(b).outcome == Nothing ==> Leave(b).p.mem == b.mem
  {
    if Idle(b.sigs) { assert Lowest(b.sigs, 0) == 5; }
  }

  /** sigreturn takes the frame off and gives the interrupted context back. */
  lemma BackAgain(p: Proc, n: int, q: Proc, base: U32)
    requires 0 <= n < 5 && q.frames == p.frames + [Live(n, base, p.regs)] && LiveIntact(q.mem, Live(n, base, p.regs))
    requires q.regs.eax == SYS_SIGRETURN && q.regs.ebx == n && q.regs.ecx == base + 8
    ensures Behaved(q, LinkageTrap) && Resumes(p, Step(q, LinkageTrap))
    ensures Idle(q.sigs) ==> Step(q, LinkageTrap).outcome == Nothing
    ensures Step(q, LinkageTrap).outcome == Nothing ==> Step(q, LinkageTrap).p.mem == q.mem
  {
    Unwound(p, n, q, base);
    RestoredContext(p.regs, q.regs);
    LeaveResumes(p, Before(q, LinkageTrap));
  }

  lemma RunsFirst(p: Proc, e: Event, es: seq<Event>, p1: Proc)
    requires Behaved(p, e) && !Step(p, e).outcome.Killed? && p1 == Step(p, e).p && Runs(p1, es)
    ensures Runs(p, [e] + es) && After(p, [e] + es) == After(p1, es)
  {
    assert ([e] + es)[1..] == es;
  }

  /** What one signal comes to: es is a run that ends at the trap of its linkage, and the trap gives
      the context of p back. */
  ghost predicate Completes(p: Proc, q: Proc, es: seq<Event>, idle: bool, m: Page) {
    && Runs(q, es)
    && var r := After(q, es);
       && r.mem == m && Behaved(r, LinkageTrap) && Resumes(p, Step(r, LinkageTrap))
       && (idle ==> Step(r, LinkageTrap).outcome == Nothing && Step(r, LinkageTrap).p.mem == m)
  }

  lemma CompletesFirst(p: Proc, q: Proc, e: Event, es: seq<Event>, q1: Proc, idle: bool, m: Page)
    requires Behaved(q, e) && !Step(q, e).outcome.Killed? && q1 == Step(q, e).p && Completes(p, q1, es, idle, m)
    ensures Completes(p, q, [e] + es, idle, m)
  {
    RunsFirst(q, e, es, q1);
  }

  /** From the handler's return on. */
  lemma ReturnRun(p: Proc, n: int, q: Proc, m: Page, h: Regs)
    requires Expecting(p, n) && Entered(p, n, q) && Returning(q, m, h) && !q.sigs[n].pending
    ensures Completes(p, q, [UserCode(m, AtTrap(m, h))] + [], Idle(p.sigs), m)
  {
    var base := p.regs.esp - 108;
    var f := q.frames[|q.frames| - 1];
    assert f == Live(n, base, p.regs) && LiveIntact(m, f);
    TrapReached(n, m, h, base, p.regs);
    var t := AtTrap(m, h);
    var q2 := q.(mem := m, regs := t);
    BackAgain(p, n, q2, base);
    assert Completes(p, q2, [], Idle(p.sigs), m);
    CompletesFirst(p, q, UserCode(m, t), [], q2, Idle(p.sigs), m);
  }

  /** Raise, interrupt, handler, trap: the events are a run, and the trap gives the program all its
      registers back, whatever the handler did in between and whatever else is pending; with nothing
      else pending the program goes on at once. */
  lemma HandledFromStartToFinish(p: Proc, n: int, q: Proc, m: Page, h: Regs)
    requires Expecting(p, n) && q == Step(p.(sigs := RaiseIn(p.sigs, n)), Interrupt).p && Returning(q, m, h)
    ensures Completes(p, p, [Raise(n), Interrupt, UserCode(m, AtTrap(m, h))], Idle(p.sigs), m)
  {
    var p1 := p.(sigs := RaiseIn(p.sigs, n));
    DeliveredAtOnce(p, n, p1);
    var es := [UserCode(m, AtTrap(m, h))] + [];
    ReturnRun(p, n, q, m, h);
    CompletesFirst(p, p1, Interrupt, es, q, Idle(p.sigs), m);
    CompletesFirst(p, p, Raise(n), [Interrupt] + es, p1, Idle(p.sigs), m);
    assert [Raise(n)] + ([Interrupt] + es) == [Raise(n), Interrupt, UserCode(m, AtTrap(m, h))];
  }
}
