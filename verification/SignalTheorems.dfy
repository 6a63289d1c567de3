/** What holds of every run of a process whose handlers leave through their linkage. */
module SignalTheorems {
  import opened Machine
  import opened UserMemory
  import opened SignalFrames
  import opened Signals

  /** The invariant before signal_handle_all, when one exception may be pending. */
  ghost predicate Leaving(p: Proc) {
    && Numbered(p.sigs)
    && (forall s :: 0 <= s < 5 ==> Masks(p.sigs, p.frames, s))
    && Stacked(p.frames)
    && Respects(p, p.mem)
    && (p.frames != [] ==> p.regs.esp <= p.frames[|p.frames| - 1].base + 8)
    && !(p.sigs[SIG_DIV_ZERO].pending && p.sigs[SIG_SEGFAULT].pending)
  }

  lemma FreshIntact(m: Page, r: Regs, signum: int)
    requires Deliverable(r.esp) && 0 <= signum < 5
    ensures LiveIntact(DeliverMem(m, r, signum), Live(signum, r.esp - 108, r))
    ensures Load(DeliverMem(m, r, signum), r.esp - 108) == r.esp - 20
  {
    var base := r.esp - 108;
    var off := base - USER_PAGE_START;
    var fr := Frame(base, signum, r);
    var m' := DeliverMem(m, r, signum);
    assert Read(m', off, 108) == fr;
    assert Read(m', off + 8, 100) == Read(m', off, 108)[8..];
    assert fr[8..] == Saved(base, signum, r);
    assert Read(m', off, 4) == Read(m', off, 108)[..4] == Bytes4(base + 88);
    WordRoundTrip(base + 88);
  }

  lemma OldIntact(m: Page, r: Regs, signum: int, f: Live)
    requires Deliverable(r.esp) && 0 <= signum < 5
    requires LiveIntact(m, f) && r.esp <= f.base + 8
    ensures LiveIntact(DeliverMem(m, r, signum), f)
  {
    var m' := DeliverMem(m, r, signum);
    var off := f.base + 8 - USER_PAGE_START;
    assert Read(m', off, 100) == Read(m, off, 100);
  }

  /** Only the 108 bytes below the interrupted ESP change. */
  lemma DeliveryFootprint(m: Page, r: Regs, signum: U32, i: int)
    requires Deliverable(r.esp) && 0 <= i < PAGE_SIZE
    requires DeliverMem(m, r, signum)[i] != m[i]
    ensures r.esp - 108 <= USER_PAGE_START + i < r.esp
  {
  }

  /** A delivery that fails half-way has written no further either. */
  lemma FailedDeliveryFootprint(m: Page, r: Regs, signum: U32, i: int)
    requires 0 <= i < |m| && PushedPart(m, r, signum)[i] != m[i]
    ensures r.esp - 104 <= USER_PAGE_START + i < r.esp
  {
  }

  /** Delivering signal n masks it and puts it on the stack of frames. */
  lemma MasksPush(t: Table, t': Table, frames: seq<Live>, f: Live)
    requires forall s :: 0 <= s < 5 ==> Masks(t, frames, s)
    requires 0 <= f.signum < 5
    requires forall s :: 0 <= s < 5 ==> t'[s].masked == (t[s].masked || s == f.signum)
    ensures forall s :: 0 <= s < 5 ==> Masks(t', frames + [f], s)
  {
    forall s | 0 <= s < 5 ensures Masks(t', frames + [f], s) {
      assert Masks(t, frames, s);
      if i :| 0 <= i < |frames| && frames[i].signum == s {
        assert (frames + [f])[i].signum == s;
      }
      if s == f.signum { assert (frames + [f])[|frames|].signum == s; }
    }
  }

  /** Returning from the newest frame unmasks its signal. */
  lemma MasksPop(t: Table, t': Table, frames: seq<Live>)
    requires forall s :: 0 <= s < 5 ==> Masks(t, frames, s)
    requires frames != [] && Stacked(frames)
    requires var n := frames[|frames| - 1].signum;
             forall s :: 0 <= s < 5 ==> t'[s].masked == (t[s].masked && s != n)
    ensures var rest := frames[..|frames| - 1]; forall s :: 0 <= s < 5 ==> Masks(t', rest, s)
  {
    var rest := frames[..|frames| - 1];
    forall s | 0 <= s < 5 ensures Masks(t', rest, s) {
      assert Masks(t, frames, s);
      if s != frames[|frames| - 1].signum {
        if i :| 0 <= i < |frames| && frames[i].signum == s { assert rest[i].signum == s; }
      }
    }
  }

  lemma LeaveDelivers(p: Proc, n: int)
    requires n == Lowest(p.sigs, 0) < 5 && HasHandler(p.sigs[n]) && Deliverable(p.regs.esp)
    ensures var q := Leave(p).p;
            && q.mem == DeliverMem(p.mem, p.regs, n)
            && q.regs.esp == p.regs.esp - 108
            && q.frames == p.frames + [Live(n, p.regs.esp - 108, p.regs)]
            && forall s :: 0 <= s < 5 ==>
                 && q.sigs[s].signum == p.sigs[s].signum
                 && q.sigs[s].masked == (p.sigs[s].masked || s == n)
                 && q.sigs[s].pending == (p.sigs[s].pending && s > n)
  {
  }

  lemma DeliveredFrames(p: Proc, q: Proc, n: int)
    requires Leaving(p) && 0 <= n < 5 && Deliverable(p.regs.esp)
    requires q.mem == DeliverMem(p.mem, p.regs, n)
    requires q.frames == p.frames + [Live(n, p.regs.esp - 108, p.regs)]
    ensures Respects(q, q.mem)
  {
    FreshIntact(p.mem, p.regs, n);
    forall i | 0 <= i < |q.frames| ensures LiveIntact(q.mem, q.frames[i]) {
      if i < |p.frames| {
        assert LiveIntact(p.mem, p.frames[i]);
        OldIntact(p.mem, p.regs, n, p.frames[i]);
      }
    }
  }

  lemma DeliveredInv(p: Proc, q: Proc, n: nat)
    requires Leaving(p) && n < 5 && !p.sigs[n].masked
    requires Respects(q, q.mem)
    requires q.regs.esp == p.regs.esp - 108 && Deliverable(p.regs.esp)
    requires q.frames == p.frames + [Live(n, p.regs.esp - 108, p.regs)]
    requires forall s :: 0 <= s < 5 ==>
               && q.sigs[s].signum == p.sigs[s].signum
               && q.sigs[s].masked == (p.sigs[s].masked || s == n)
               && q.sigs[s].pending == (p.sigs[s].pending && s > n)
    requires p.sigs[SIG_SEGFAULT].pending ==> n == 1
    ensures Inv(q)
  {
    var f := Live(n, p.regs.esp - 108, p.regs);
    MasksPush(p.sigs, q.sigs, p.frames, f);
    assert Masks(p.sigs, p.frames, n);
    StackedPush(p.frames, f);
  }

  lemma DeliverKeeps(p: Proc, n: int)
    requires Leaving(p)
    requires n == Lowest(p.sigs, 0) < 5 && HasHandler(p.sigs[n]) && Deliverable(p.regs.esp)
    ensures Inv(Leave(p).p)
  {
    LeaveDelivers(p, n);
    DeliveredFrames(p, Leave(p).p, n);
    ExceptionsFirst(p.sigs, n);
    DeliveredInv(p, Leave(p).p, n);
  }

  /** A pending exception is acted on before anything else. */
  lemma ExceptionsFirst(t: Table, n: nat)
    requires Numbered(t) && n == Lowest(t, 0)
    requires !(t[SIG_DIV_ZERO].pending && t[SIG_SEGFAULT].pending)
    ensures t[SIG_DIV_ZERO].pending ==> n == 0
    ensures t[SIG_SEGFAULT].pending ==> n == 1
  {
  }

  lemma StackedPush(frames: seq<Live>, f: Live)
    requires Stacked(frames)
    requires forall i :: 0 <= i < |frames| ==> frames[i].signum != f.signum
    requires frames != [] ==> f.base + 108 <= frames[|frames| - 1].base + 8
    ensures Stacked(frames + [f])
  {
  }

  lemma LeaveIgnores(p: Proc)
    requires Lowest(p.sigs, 0) == 5
    ensures var q := Leave(p).p;
            && q == p.(sigs := q.sigs)
            && forall s :: 0 <= s < 5 ==>
                 q.sigs[s].signum == p.sigs[s].signum && q.sigs[s].masked == p.sigs[s].masked && !q.sigs[s].pending
  {
  }

  lemma LeaveKeeps(p: Proc)
    requires Leaving(p)
    requires !Leave(p).outcome.Killed?
    ensures Inv(Leave(p).p)
  {
    var n := Lowest(p.sigs, 0);
    if n < 5 {
      DeliverKeeps(p, n);
    } else {
      LeaveIgnores(p);
      var q := Leave(p).p;
      forall s | 0 <= s < 5 ensures Masks(q.sigs, q.frames, s) {
        assert Masks(p.sigs, p.frames, s);
      }
    }
  }

  // ---------------------------------------------------------------- sigreturn

  lemma SavedDecodes(m: Page, base: U32, signum: U32, ctx: Regs)
    requires Intact(m, base, signum, ctx)
    ensures UserRange(base + 8, 80)
    ensures DecodeRegs(Read(m, base + 8 - USER_PAGE_START, 80)) == ctx
  {
    var off := base + 8 - USER_PAGE_START;
    assert Read(m, off, 80) == Read(m, off, 100)[..80];
    assert Saved(base, signum, ctx)[..80] == EncodeRegs(ctx);
    RegsRoundTrip(ctx);
  }

  /** The trap at the end of a linkage restores the context saved at that delivery. */
  lemma SigreturnRestores(p: Proc, f: Live)
    requires LiveIntact(p.mem, f)
    requires p.regs.ebx == f.signum && p.regs.ecx == f.base + 8
    ensures Sigreturn(p) == p.(sigs := p.sigs[f.signum := p.sigs[f.signum].(masked := false)], regs := Restored(f.ctx, p.regs))
  {
    SavedDecodes(p.mem, f.base, f.signum, f.ctx);
  }

  /** Everything a program can see of its registers. */
  ghost predicate SameContext(r: Regs, s: Regs) {
    && r.eax == s.eax && r.ebx == s.ebx && r.ecx == s.ecx && r.edx == s.edx
    && r.esi == s.esi && r.edi == s.edi && r.ebp == s.ebp && r.esp == s.esp && r.eip == s.eip
    && forall i :: 0 <= i < 32 && Bit(EFLAGS_USER, i) ==> Bit(r.eflags, i) == Bit(s.eflags, i)
  }

  lemma RestoredContext(saved: Regs, k: Regs)
    ensures SameContext(Restored(saved, k), saved)
    ensures forall i :: 0 <= i < 32 && !Bit(EFLAGS_USER, i) ==> Bit(Restored(saved, k).eflags, i) == Bit(k.eflags, i)
  {
    forall i | 0 <= i < 32
      ensures Bit(Restored(saved, k).eflags, i) == if Bit(EFLAGS_USER, i) then Bit(saved.eflags, i) else Bit(k.eflags, i)
    {
      FlagsMerge(saved, k, i);
    }
  }

  /** A signal handled from start to finish, whatever the handler does to registers and to
      memory outside the frame: delivery, the handler's ret, the linkage, sigreturn. */
  lemma DeliverThenReturn(m: Page, r: Regs, s: Sig, p: Proc, h: Regs)
    requires Deliverable(r.esp) && 0 <= s.signum < 5
    requires Intact(p.mem, r.esp - 108, s.signum, r)
    requires Load(p.mem, r.esp - 108) == Load(DeliverMem(m, r, s.signum), r.esp - 108)
    requires h.esp == HandlerRegs(r, s.handler).esp
    ensures var trap := Exec(p.mem, Exec(p.mem, Exec(p.mem, Exec(p.mem, Ret(p.mem, h)))));
            && trap.eax == SYS_SIGRETURN
            && var q := Sigreturn(p.(regs := trap));
               && SameContext(q.regs, r)
               && !q.sigs[s.signum].masked
               && q.mem == p.mem
  {
    var base := r.esp - 108;
    FreshIntact(m, r, s.signum);
    HandlerReturns(p.mem, base, s.signum, r, h);
    var t := Exec(p.mem, Exec(p.mem, Exec(p.mem, Ret(p.mem, h))));
    var trap := Exec(p.mem, t);
    assert trap == t.(eip := base + 105);
    SigreturnRestores(p.(regs := trap), Live(s.signum, base, r));
    RestoredContext(r, trap);
  }

  lemma PoppedFrames(m: Page, frames: seq<Live>)
    requires frames != [] && Stacked(frames)
    requires forall i :: 0 <= i < |frames| ==> LiveIntact(m, frames[i])
    ensures var rest := frames[..|frames| - 1]; var f := frames[|frames| - 1];
            && Stacked(rest)
            && (forall i :: 0 <= i < |rest| ==> LiveIntact(m, rest[i]))
            && (rest != [] ==> f.ctx.esp <= rest[|rest| - 1].base + 8)
  {
    var rest := frames[..|frames| - 1];
    assert LiveIntact(m, frames[|frames| - 1]);
    forall i | 0 <= i < |rest| ensures LiveIntact(m, rest[i]) {
      assert LiveIntact(m, frames[i]);
    }
  }

  lemma PoppedLeaving(p: Proc, q: Proc)
    requires Inv(p) && p.frames != []
    requires var f := p.frames[|p.frames| - 1];
             && 0 <= f.signum < 5
             && q.sigs == p.sigs[f.signum := p.sigs[f.signum].(masked := false)]
             && q.regs.esp == f.ctx.esp && q.mem == p.mem && q.frames == p.frames[..|p.frames| - 1]
    ensures Leaving(q)
  {
    MasksPop(p.sigs, q.sigs, p.frames);
    PoppedFrames(p.mem, p.frames);
  }

  lemma ReturnLeaving(p: Proc)
    requires Inv(p) && Behaved(p, LinkageTrap)
    ensures Leaving(Before(p, LinkageTrap))
  {
    var f := p.frames[|p.frames| - 1];
    assert LiveIntact(p.mem, f);
    SigreturnRestores(p, f);
    PoppedLeaving(p, Before(p, LinkageTrap));
  }

  // ---------------------------------------------------------------- whole runs

  lemma SameMasks(t: Table, t': Table, frames: seq<Live>)
    requires forall s :: 0 <= s < 5 ==> Masks(t, frames, s)
    requires forall s :: 0 <= s < 5 ==> t'[s].masked == t[s].masked
    ensures forall s :: 0 <= s < 5 ==> Masks(t', frames, s)
  {
    forall s | 0 <= s < 5 ensures Masks(t', frames, s) { assert Masks(t, frames, s); }
  }

  lemma CallLeaving(p: Proc, ret: U32, mem: Page)
    requires Inv(p) && Behaved(p, Syscall(ret, mem))
    ensures Leaving(Before(p, Syscall(ret, mem)))
  {
    SameMasks(p.sigs, Before(p, Syscall(ret, mem)).sigs, p.frames);
  }

  lemma BeforeLeaving(p: Proc, e: Event)
    requires Inv(p) && Behaved(p, e) && !e.UserCode? && !e.Raise?
    ensures Leaving(Before(p, e))
  {
    match e
    case LinkageTrap => ReturnLeaving(p);
    case Exception(n) => SameMasks(p.sigs, Before(p, e).sigs, p.frames);
    case Syscall(ret, mem) => CallLeaving(p, ret, mem);
    case Interrupt =>
  }

  lemma StepKeeps(p: Proc, e: Event)
    requires Inv(p) && Behaved(p, e)
    requires !Step(p, e).outcome.Killed?
    ensures Inv(Step(p, e).p)
  {
    if e.UserCode? {
    } else if e.Raise? {
      SameMasks(p.sigs, RaiseIn(p.sigs, e.signum), p.frames);
    } else {
      BeforeLeaving(p, e);
      LeaveKeeps(Before(p, e));
    }
  }

  /** A run: the events, all of them behaved, none of them fatal. */
  ghost predicate Runs(p: Proc, es: seq<Event>)
    decreases |es|
  {
    es == [] || (Behaved(p, es[0]) && !Step(p, es[0]).outcome.Killed? && Runs(Step(p, es[0]).p, es[1..]))
  }

  function After(p: Proc, es: seq<Event>): Proc
    decreases |es|
  {
    if es == [] then p else After(Step(p, es[0]).p, es[1..])
  }

  /** Over every such run: masked signals are exactly those with a frame, frames are distinct
      signals stacked downwards and intact, and no exception is pending in user mode. */
  lemma {:induction false} RunKeeps(p: Proc, es: seq<Event>)
    requires Inv(p) && Runs(p, es)
    ensures Inv(After(p, es))
    decreases |es|
  {
    if es != [] {
      StepKeeps(p, es[0]);
      RunKeeps(Step(p, es[0]).p, es[1..]);
    }
  }

  /** Nesting is never deeper than the number of signals. */
  lemma DepthBound(p: Proc)
    requires Inv(p)
    ensures |p.frames| <= NUM_SIGNALS
  {
    forall i | 0 <= i < |p.frames| ensures 0 <= p.frames[i].signum < 5 {
      assert LiveIntact(p.mem, p.frames[i]);
    }
    Pigeonhole(p.frames, 5);
  }

  lemma Pigeonhole(frames: seq<Live>, n: nat)
    requires forall i :: 0 <= i < |frames| ==> 0 <= frames[i].signum < n
    requires forall i, j :: 0 <= i < j < |frames| ==> frames[i].signum != frames[j].signum
    ensures |frames| <= n
    decreases n
  {
    if frames != [] {
      assert 0 <= frames[0].signum < n;
      if k :| 0 <= k < |frames| && frames[k].signum == n - 1 {
        Pigeonhole(frames[..k] + frames[k + 1..], n - 1);
      } else {
        Pigeonhole(frames, n - 1);
      }
    }
  }

  lemma LeaveFrames(p: Proc)
    ensures p.frames <= Leave(p).p.frames
  {
  }

  /** A frame stays on the stack, unchanged, until its own linkage is executed. */
  lemma FramePersists(p: Proc, e: Event, d: nat)
    requires d < |p.frames|
    requires !(e.LinkageTrap? && |p.frames| == d + 1)
    ensures d < |Step(p, e).p.frames| && Step(p, e).p.frames[..d + 1] == p.frames[..d + 1]
  {
    if !e.UserCode? && !e.Raise? {
      var b := Before(p, e);
      assert d < |b.frames| && b.frames[..d + 1] == p.frames[..d + 1];
      LeaveFrames(b);
      assert Step(p, e).p.frames[..d + 1] == b.frames[..d + 1];
    }
  }

  /** The linkage of frame d is executed at the end of es and not before. */
  ghost predicate FirstReturn(p: Proc, es: seq<Event>, d: nat)
    decreases |es|
  {
    if es == [] then |p.frames| == d + 1
    else !(es[0].LinkageTrap? && |p.frames| == d + 1) && FirstReturn(Step(p, es[0]).p, es[1..], d)
  }

  /** However deeply other signals nest in between, the context a frame restores is the one
      that was interrupted when it was pushed. */
  lemma {:induction false} ReturnMatchesDelivery(p: Proc, es: seq<Event>, d: nat)
    requires Inv(p) && Runs(p, es) && d < |p.frames|
    requires FirstReturn(p, es, d)
    requires Behaved(After(p, es), LinkageTrap)
    ensures SameContext(Sigreturn(After(p, es)).regs, p.frames[d].ctx)
    decreases |es|
  {
    if es == [] {
      assert LiveIntact(p.mem, p.frames[d]);
      SigreturnRestores(p, p.frames[d]);
      RestoredContext(p.frames[d].ctx, p.regs);
    } else {
      StepKeeps(p, es[0]);
      FramePersists(p, es[0], d);
      assert Step(p, es[0]).p.frames[..d + 1][d] == p.frames[..d + 1][d];
      ReturnMatchesDelivery(Step(p, es[0]).p, es[1..], d);
    }
  }
}
