/** Signal decisions (signal.c) and the interrupt exit path that makes them (idt.c), for one
    process. */
module Signals {
  import opened Machine
  import opened UserMemory
  import opened SignalFrames

  const NUM_SIGNALS := 5
  const SYS_SET_HANDLER: U32 := 9
  const INT_IRQ0 := 0x20
  const SIG_DIV_ZERO := 0
  const SIG_SEGFAULT := 1
  const SIG_INTERRUPT := 2
  const SIG_ALARM := 3
  const SIG_USER1 := 4

  datatype Sig = Sig(signum: int, handler: U32, masked: bool, pending: bool)

  type Table = t: seq<Sig> | |t| == 5 witness seq(5, _ => Sig(0, 0, false, false))

  ghost predicate Numbered(t: Table) {
    forall i :: 0 <= i < 5 ==> t[i].signum == i
  }

  predicate HasHandler(s: Sig) { s.handler != 0 && !s.masked }

  /** DIV_ZERO, SEGFAULT and INTERRUPT kill by default; the others are ignored. */
  predicate Fatal(s: Sig) { s.signum == SIG_DIV_ZERO || s.signum == SIG_SEGFAULT || s.signum == SIG_INTERRUPT }

  /** A pending signal that does something. */
  predicate Acts(s: Sig) { s.pending && (HasHandler(s) || Fatal(s)) }

  /** signal_has_pending. */
  predicate HasPending(t: Table) { exists i :: 0 <= i < 5 && Acts(t[i]) }

  datatype Outcome =
    | Nothing
    | Handler(signum: int)
    | Killed(signum: int, status: int)

  datatype Exit = Exit(sigs: Table, mem: Page, regs: Regs, outcome: Outcome)

  /** The lowest-numbered signal from i on that does something, or NUM_SIGNALS. */
  function Lowest(t: Table, i: nat): (r: nat)
    requires i <= 5
    ensures i <= r <= 5
    ensures r < 5 ==> Acts(t[r])
    ensures forall j :: i <= j < r ==> !Acts(t[j])
    decreases 5 - i
  {
    if i == 5 || Acts(t[i]) then i else Lowest(t, i + 1)
  }

  /** Pending signals below n are dropped: signal_handle ignored them. */
  function Dropped(t: Table, n: nat): (r: Table)
    requires n <= 5
  {
    seq(5, i requires 0 <= i < 5 => if i < n then t[i].(pending := false) else t[i])
  }

  /** signal_handle_all as a decision: act on the lowest-numbered signal that does something,
      and on no other. */
  function HandleAll(t: Table, m: Page, r: Regs): Exit {
    var n := Lowest(t, 0);
    var d := Dropped(t, n);
    if n == 5 then Exit(d, m, r, Nothing)
    else if HasHandler(t[n]) then
      if Deliverable(r.esp)
      then Exit(d[n := d[n].(masked := true, pending := false)], DeliverMem(m, r, n), HandlerRegs(r, t[n].handler), Handler(n))
      else Exit(d, PushedPart(m, r, n), r, Killed(n, 256))
    else Exit(d, m, r, Killed(n, if n == SIG_INTERRUPT then 130 else 256))
  }

  /** signal_has_pending and signal_handle_all decide alike, and the latter acts on the lowest
      signal that does something. */
  lemma PendingMeansAction(t: Table, m: Page, r: Regs)
    requires Numbered(t)
    ensures var o := HandleAll(t, m, r).outcome;
            && (o != Nothing <==> HasPending(t))
            && (o != Nothing ==> 0 <= o.signum < 5 && Acts(t[o.signum]) && forall j :: 0 <= j < o.signum ==> !Acts(t[j]))
            && (o.Handler? <==> o != Nothing && HasHandler(t[o.signum]) && Deliverable(r.esp))
  {
    var n := Lowest(t, 0);
    if i :| 0 <= i < 5 && Acts(t[i]) {
      assert n <= i;
    }
  }

  // ---------------------------------------------------------------- one process

  /** A delivered signal whose handler has not yet returned. */
  datatype Live = Live(signum: int, base: U32, ctx: Regs)

  /** `frames` is history: the kernel keeps no such list. */
  datatype Proc = Proc(sigs: Table, mem: Page, regs: Regs, frames: seq<Live>)

  datatype Event =
    | UserCode(mem: Page, regs: Regs)         // any run of user instructions
    | Raise(signum: int)                      // by the keyboard or the clock
    | Interrupt                               // any interrupt that changes no register
    | Exception(intNum: int)
    | Syscall(ret: U32, mem: Page)            // any system call but sigreturn
    | LinkageTrap                                // the trap at the end of the newest frame's linkage

  datatype Result = Result(p: Proc, outcome: Outcome)

  /** The end of idt_handle_interrupt. */
  function Leave(p: Proc): Result {
    var x := HandleAll(p.sigs, p.mem, p.regs);
    Result(Proc(x.sigs, x.mem, x.regs,
                if x.outcome.Handler? && Deliverable(p.regs.esp)
                then p.frames + [Live(x.outcome.signum, p.regs.esp - 108, p.regs)] else p.frames),
           x.outcome)
  }

  function RaiseIn(t: Table, signum: int): Table {
    if 0 <= signum < 5 then t[signum := t[signum].(pending := true)] else t
  }

  /** signal_sigreturn and the assignment to regs->eax in handle_syscall. */
  function Sigreturn(p: Proc): Proc {
    var signum := p.regs.ebx;
    var addr := p.regs.ecx;
    if signum >= 5 || !UserRange(addr, 80) then p.(regs := p.regs.(eax := 0xFFFF_FFFF))
    else
      var saved := DecodeRegs(Read(p.mem, addr - USER_PAGE_START, 80));
      p.(sigs := p.sigs[signum := p.sigs[signum].(masked := false)], regs := Restored(saved, p.regs))
  }

  /** idt_handle_interrupt from user mode, up to signal_handle_all.  `ret` is what a system call
      other than set_handler and sigreturn returns. */
  function Dispatch(p: Proc, intNum: int, ret: U32): Proc {
    if intNum < 32 then p.(sigs := RaiseIn(p.sigs, if intNum == 0 then SIG_DIV_ZERO else SIG_SEGFAULT))
    else if intNum != INT_SYSCALL then p
    else if p.regs.eax == SYS_SIGRETURN then Sigreturn(p)
    else if p.regs.eax == SYS_SET_HANDLER then
      if p.regs.ebx < 5
      then p.(sigs := p.sigs[p.regs.ebx := p.sigs[p.regs.ebx].(handler := p.regs.ecx)], regs := p.regs.(eax := 0))
      else p.(regs := p.regs.(eax := 0xFFFF_FFFF))
    else p.(regs := p.regs.(eax := ret))
  }

  /** The state in which signal_handle_all runs at the end of the interrupt. */
  function Before(p: Proc, e: Event): Proc {
    match e
    case Exception(n) => Dispatch(p, if 0 <= n < 32 then n else 31, 0)
    case Syscall(ret, m) => Dispatch(p.(mem := m), INT_SYSCALL, ret)
    case LinkageTrap =>
      if p.frames == [] then p else Dispatch(p, INT_SYSCALL, 0).(frames := p.frames[..|p.frames| - 1])
    case _ => Dispatch(p, INT_IRQ0, 0)
  }

  function Step(p: Proc, e: Event): Result {
    match e
    case UserCode(m, r) => Result(p.(mem := m, regs := r), Nothing)
    case Raise(s) => Result(p.(sigs := RaiseIn(p.sigs, s)), Nothing)
    case _ => Leave(Before(p, e))
  }

  /** What we ask of user code: saved frames stay as they are, ESP stays below the newest of
      them, and the trap of a linkage is reached with the registers that linkage loads.
      External signals are INTERRUPT, ALARM or USER1. */
  ghost predicate Behaved(p: Proc, e: Event) {
    match e
    case UserCode(m, r) => Respects(p, m) && (p.frames != [] ==> r.esp <= p.frames[|p.frames| - 1].base + 8)
    case Raise(s) => 2 <= s < 5
    case Syscall(_, m) => Respects(p, m) && p.regs.eax != SYS_SIGRETURN
    case LinkageTrap =>
      p.frames != [] &&
      var f := p.frames[|p.frames| - 1];
      p.regs.ebx == f.signum && p.regs.ecx == f.base + 8 && p.regs.eax == SYS_SIGRETURN
    case _ => true
  }

  ghost predicate Respects(p: Proc, m: Page) {
    forall i :: 0 <= i < |p.frames| ==> LiveIntact(m, p.frames[i])
  }

  ghost predicate LiveIntact(m: Page, f: Live) {
    0 <= f.signum < 5 && f.ctx.esp == f.base + 108 && Intact(m, f.base, f.signum, f.ctx)
  }

  predicate Masks(t: Table, frames: seq<Live>, s: int)
    requires 0 <= s < 5
  {
    t[s].masked <==> exists i :: 0 <= i < |frames| && frames[i].signum == s
  }

  /** Frames are of distinct signals and lie one below the other. */
  predicate Stacked(frames: seq<Live>) {
    && (forall i, j :: 0 <= i < j < |frames| ==> frames[i].signum != frames[j].signum)
    && (forall i, j :: 0 <= i < j < |frames| ==> frames[j].base + 108 <= frames[i].base + 8)
  }

  ghost predicate Inv(p: Proc) {
    && Numbered(p.sigs)
    && (forall s :: 0 <= s < 5 ==> Masks(p.sigs, p.frames, s))
    && Stacked(p.frames)
    && Respects(p, p.mem)
    && (p.frames != [] ==> p.regs.esp <= p.frames[|p.frames| - 1].base + 8)
    && !p.sigs[SIG_DIV_ZERO].pending && !p.sigs[SIG_SEGFAULT].pending
  }
}
