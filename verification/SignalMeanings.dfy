/** What signal.c and idt.c promise a program, in terms of registers, memory and numbers. */
module SignalMeanings {
  import opened Machine
  import opened UserMemory
  import opened SignalFrames
  import opened Signals
  import opened SignalTheorems
  import opened SignalRuns

  // ---------------------------------------------------------------- which signal does what

  /** Signal n is pending and has a handler it can enter, or is one of the three that kill. */
  predicate Counts(t: Table, n: int)
    requires 0 <= n < 5
  {
    t[n].pending && ((t[n].handler != 0 && !t[n].masked) || n <= 2)
  }

  /** The lowest pending signal that counts is handled: its handler is entered if it has one that is
      not running and 108 bytes of user stack are free, else the process dies, with 130 for an
      INTERRUPT it does not handle and 256 otherwise. */
  lemma LowestIsHandled(t: Table, m: Page, r: Regs, n: int)
    requires Numbered(t) && 0 <= n < 5 && Counts(t, n) && forall j :: 0 <= j < n ==> !Counts(t, j)
    ensures HandleAll(t, m, r).outcome ==
            if t[n].handler != 0 && !t[n].masked then
              if 0x800_006C <= r.esp < 0x840_0000 then Handler(n) else Killed(n, 256)
            else Killed(n, if n == 2 then 130 else 256)
  {
    assert forall j :: 0 <= j < 5 ==> (Acts(t[j]) <==> Counts(t, j));
    assert Lowest(t, 0) == n;
  }

  /** If none counts, all that is pending is forgotten, and nothing else changes. */
  lemma RestIsForgotten(t: Table, m: Page, r: Regs)
    requires Numbered(t) && forall j :: 0 <= j < 5 ==> !Counts(t, j)
    ensures var x := HandleAll(t, m, r);
            && x.outcome == Nothing && x.mem == m && x.regs == r
            && forall j :: 0 <= j < 5 ==> x.sigs[j] == t[j].(pending := false)
  {
    assert forall j :: 0 <= j < 5 ==> (Acts(t[j]) <==> Counts(t, j));
    assert Lowest(t, 0) == 5;
  }

  lemma Interrupted(p: Proc, n: int)
    requires 0 <= n < 5
    ensures var x, y := Step(Step(p, Raise(n)).p, Interrupt), HandleAll(p.sigs[n := p.sigs[n].(pending := true)], p.mem, p.regs);
            x.outcome == y.outcome && x.p.sigs == y.sigs && x.p.mem == y.mem && x.p.regs == y.regs
  {
    var p1 := p.(sigs := p.sigs[n := p.sigs[n].(pending := true)]);
    assert Step(p, Raise(n)).p == p1;
    assert Step(p1, Interrupt) == Leave(p1);
  }

  /** An ALARM or USER1 nobody handles is ignored; an INTERRUPT nobody handles kills. */
  lemma Defaults(p: Proc, n: int)
    requires Inv(p) && 2 <= n < 5 && p.sigs[n].handler == 0 && Idle(p.sigs)
    ensures var x := Step(Step(p, Raise(n)).p, Interrupt);
            && (n == 2 ==> x.outcome == Killed(2, 130))
            && (n > 2 ==> x.outcome == Nothing && x.p.regs == p.regs && x.p.mem == p.mem && Idle(x.p.sigs))
  {
    Interrupted(p, n);
    var t := p.sigs[n := p.sigs[n].(pending := true)];
    if n == 2 { LowestIsHandled(t, p.mem, p.regs, 2); } else { RestIsForgotten(t, p.mem, p.regs); }
  }

  // ---------------------------------------------------------------- entering a handler

  lemma DirectionBit(i: nat)
    requires i < 32
    ensures Bit(Not32(EFLAGS_DF), i) <==> i != 10
  {
    PowWord();
    assert Pow2(10) == 0x400 by { assert Pow2(5) == 32; PowSum(5, 5); }
    OneBit(10, i);
    NotBit(EFLAGS_DF, i);
  }

  /** The handler starts at its own address, on the frame, in user segments, with the interrupted
      program's general registers and flags, the direction flag clear. */
  ghost predicate StartsHandler(r: Regs, q: Regs, handler: U32) {
    && q.eip == handler && q.esp == r.esp - 108
    && q.eax == r.eax && q.ebx == r.ebx && q.ecx == r.ecx && q.edx == r.edx
    && q.esi == r.esi && q.edi == r.edi && q.ebp == r.ebp
    && q.cs == 0x23 && q.ds == 0x2B && q.es == 0x2B && q.fs == 0x2B && q.gs == 0x2B && q.ss == 0x2B
    && !Bit(q.eflags, 10) && forall i :: 0 <= i < 32 && i != 10 ==> Bit(q.eflags, i) == Bit(r.eflags, i)
  }

  lemma HandlerStarts(r: Regs, handler: U32)
    requires Deliverable(r.esp)
    ensures StartsHandler(r, HandlerRegs(r, handler), handler)
  {
    forall i | 0 <= i < 32
      ensures Bit(HandlerRegs(r, handler).eflags, i) == (Bit(r.eflags, i) && i != 10)
    {
      DirectionBit(i);
      AndBit(r.eflags, Not32(EFLAGS_DF), i);
    }
  }

  /** Its stack holds the address to return to and the signal number, as for a C function, and above
      them the interrupted registers in the order of the interrupt frame. */
  ghost predicate HasFrame(m: Page, esp: int, n: int, r: Regs)
    requires USER_PAGE_START <= esp && esp + 108 < USER_PAGE_END
  {
    && Load(m, esp) == esp + 88 && Load(m, esp + 4) == n
    && Load(m, esp + 32) == r.eax && Load(m, esp + 36) == r.ebx && Load(m, esp + 40) == r.ecx && Load(m, esp + 44) == r.edx
    && Load(m, esp + 48) == r.esi && Load(m, esp + 52) == r.edi && Load(m, esp + 56) == r.ebp
    && Load(m, esp + 68) == r.eip && Load(m, esp + 76) == r.eflags && Load(m, esp + 80) == r.esp
  }

  lemma FrameWord(m: Page, base: U32, f: seq<Byte>, k: nat, w: U32)
    requires USER_PAGE_START <= base && base + 108 < USER_PAGE_END && k + 4 <= 108 && |f| == 108
    requires Read(m, base - USER_PAGE_START, 108) == f && f[k..k + 4] == Bytes4(w)
    ensures Load(m, base + k) == w
  {
    forall i | 0 <= i < 4 ensures Read(m, base + k - USER_PAGE_START, 4)[i] == Bytes4(w)[i] {
      assert Read(m, base - USER_PAGE_START, 108)[k + i] == f[k..k + 4][i];
    }
    assert Read(m, base + k - USER_PAGE_START, 4) == Bytes4(w);
    WordRoundTrip(w);
  }

  lemma FrameHead(m: Page, base: U32, n: U32, r: Regs)
    requires USER_PAGE_START <= base && base + 108 < USER_PAGE_END
    requires Read(m, base - USER_PAGE_START, 108) == Frame(base, n, r)
    ensures Load(m, base) == base + 88 && Load(m, base + 4) == n
  {
    var f := Frame(base, n, r);
    assert f[0..4] == Bytes4(base + 88);
    assert f[4..8] == Bytes4(n);
    FrameWord(m, base, f, 0, base + 88);
    FrameWord(m, base, f, 4, n);
  }

  lemma FrameReg(m: Page, base: U32, n: U32, r: Regs, k: nat, w: U32)
    requires USER_PAGE_START <= base && base + 108 < USER_PAGE_END && k < 20 && RegWords(r)[k] == w
    requires Read(m, base - USER_PAGE_START, 108) == Frame(base, n, r)
    ensures Load(m, base + 8 + 4 * k) == w
  {
    FrameSlice(base, n, r, k, 8 + 4 * k, Frame(base, n, r));
    FrameWord(m, base, Frame(base, n, r), 8 + 4 * k, w);
  }

  lemma FrameSlice(base: U32, n: U32, r: Regs, k: nat, at: nat, f: seq<Byte>)
    requires base + 108 < WORD && k < 20 && at == 8 + 4 * k && f == Frame(base, n, r)
    ensures f[at..at + 4] == Bytes4(RegWords(r)[k])
  {
    PackAt(RegWords(r), k);
    FrameMiddle(base, n, r, f, EncodeRegs(r));
    SliceOfMiddle(f, EncodeRegs(r), at);
  }

  lemma SliceOfMiddle(f: seq<Byte>, regs: seq<Byte>, at: nat)
    requires |f| == 108 && f[8..88] == regs && 8 <= at <= 84
    ensures f[at..at + 4] == regs[at - 8..at - 4]
  {
    assert forall i :: at - 8 <= i < at - 4 ==> regs[i] == f[8..88][i] == f[i + 8];
  }

  lemma FrameMiddle(base: U32, n: U32, r: Regs, f: seq<Byte>, regs: seq<Byte>)
    requires base + 108 < WORD && f == Frame(base, n, r) && regs == EncodeRegs(r)
    ensures f[8..88] == regs
  {
  }

  lemma GeneralRegs(m: Page, base: U32, n: U32, r: Regs)
    requires USER_PAGE_START <= base && base + 108 < USER_PAGE_END
    requires Read(m, base - USER_PAGE_START, 108) == Frame(base, n, r)
    ensures Load(m, base + 32) == r.eax && Load(m, base + 36) == r.ebx && Load(m, base + 40) == r.ecx && Load(m, base + 44) == r.edx
    ensures Load(m, base + 48) == r.esi && Load(m, base + 52) == r.edi && Load(m, base + 56) == r.ebp
  {
    FrameReg(m, base, n, r, 6, r.eax);
    FrameReg(m, base, n, r, 7, r.ebx);
    FrameReg(m, base, n, r, 8, r.ecx);
    FrameReg(m, base, n, r, 9, r.edx);
    FrameReg(m, base, n, r, 10, r.esi);
    FrameReg(m, base, n, r, 11, r.edi);
    FrameReg(m, base, n, r, 12, r.ebp);
  }

  lemma ControlRegs(m: Page, base: U32, n: U32, r: Regs)
    requires USER_PAGE_START <= base && base + 108 < USER_PAGE_END
    requires Read(m, base - USER_PAGE_START, 108) == Frame(base, n, r)
    ensures Load(m, base + 68) == r.eip && Load(m, base + 76) == r.eflags && Load(m, base + 80) == r.esp
  {
    FrameReg(m, base, n, r, 15, r.eip);
    FrameReg(m, base, n, r, 17, r.eflags);
    FrameReg(m, base, n, r, 18, r.esp);
  }

  lemma FrameIsThere(m: Page, r: Regs, n: int)
    requires Deliverable(r.esp) && 0 <= n < 5
    ensures HasFrame(DeliverMem(m, r, n), r.esp - 108, n, r)
  {
    var base, d := r.esp - 108, DeliverMem(m, r, n);
    assert Read(d, base - USER_PAGE_START, 108) == Frame(base, n, r);
    FrameHead(d, base, n, r);
    GeneralRegs(d, base, n, r);
    ControlRegs(d, base, n, r);
  }

  lemma LeaveGives(p: Proc, n: int)
    requires Lowest(p.sigs, 0) == n < 5 && HasHandler(p.sigs[n]) && Deliverable(p.regs.esp)
    ensures Leave(p).p.regs == HandlerRegs(p.regs, p.sigs[n].handler) && Leave(p).p.mem == DeliverMem(p.mem, p.regs, n)
  {
  }

  lemma EnteredAt(p: Proc, n: int, p1: Proc, q: Proc)
    requires Expecting(p, n) && p1 == p.(sigs := RaiseIn(p.sigs, n)) && q == Leave(p1).p
    ensures q.regs == HandlerRegs(p.regs, p.sigs[n].handler) && q.mem == DeliverMem(p.mem, p.regs, n)
  {
    RaisedIsLowest(p, n, p1.sigs);
    LeaveGives(p1, n);
  }

  /** All that a handler finds. */
  ghost predicate Starts(r: Regs, n: int, handler: U32, q: Proc) {
    && StartsHandler(r, q.regs, handler)
    && USER_PAGE_START + 108 <= r.esp < USER_PAGE_END && HasFrame(q.mem, r.esp - 108, n, r)
  }

  lemma StartsAt(m: Page, r: Regs, n: int, handler: U32, q: Proc)
    requires Deliverable(r.esp) && 0 <= n < 5
    requires q.regs == HandlerRegs(r, handler) && q.mem == DeliverMem(m, r, n)
    ensures Starts(r, n, handler, q)
  {
    HandlerStarts(r, handler);
    FrameIsThere(m, r, n);
  }

  lemma EntersNext(p: Proc, n: int, p1: Proc, q: Proc)
    requires Expecting(p, n) && p1 == p.(sigs := RaiseIn(p.sigs, n)) && q == Leave(p1).p
    ensures Starts(p.regs, n, p.sigs[n].handler, q)
  {
    EnteredAt(p, n, p1, q);
    StartsAt(p.mem, p.regs, n, p.sigs[n].handler, q);
  }

  lemma RaisedThenInterrupted(p: Proc, n: int, p1: Proc, x: Result)
    requires 0 <= n < 5 && p1 == p.(sigs := RaiseIn(p.sigs, n)) && x == Step(Step(p, Raise(n)).p, Interrupt)
    ensures x == Leave(p1)
  {
    assert Step(p, Raise(n)).p == p1;
    assert Step(p1, Interrupt) == Leave(p1);
  }

  /** A raised signal that is expected enters its handler at the next interrupt. */
  lemma HandlerEntered(p: Proc, n: int, x: Result)
    requires Expecting(p, n) && x == Step(Step(p, Raise(n)).p, Interrupt)
    ensures x.outcome == Handler(n) && Starts(p.regs, n, p.sigs[n].handler, x.p)
  {
    var p1 := p.(sigs := RaiseIn(p.sigs, n));
    RaisedThenInterrupted(p, n, p1, x);
    RaisedIsLowest(p, n, p1.sigs);
    EntersNext(p, n, p1, x.p);
  }

  // ---------------------------------------------------------------- set_handler

  lemma LeaveKeepsHandlers(p: Proc, i: int)
    requires 0 <= i < 5
    ensures Leave(p).p.sigs[i].handler == p.sigs[i].handler
  {
    assert Dropped(p.sigs, Lowest(p.sigs, 0))[i].handler == p.sigs[i].handler;
    assert HandleAll(p.sigs, p.mem, p.regs).sigs[i].handler == p.sigs[i].handler;
  }

  /** The registers a process leaves the kernel with are loaded, or in the newest frame. */
  lemma LeaveKeepsRegs(p: Proc)
    ensures Leave(p).outcome == Nothing ==> Leave(p).p.regs == p.regs
    ensures Leave(p).outcome.Handler? ==>
              Leave(p).p.frames != [] && Leave(p).p.frames[|Leave(p).p.frames| - 1].ctx == p.regs
  {
  }

  /** set_handler installs a handler and returns 0; with a bad number it installs nothing and returns -1.
      The value is in EAX, or in the saved EAX if a signal is delivered on the way back. */
  lemma HandlerIsSet(p: Proc, ret: U32, m: Page)
    requires p.regs.eax == 9
    ensures var x := Step(p, Syscall(ret, m)); var n, value := p.regs.ebx, if p.regs.ebx < 5 then 0 else 0xFFFF_FFFF;
            && (forall i :: 0 <= i < 5 ==> x.p.sigs[i].handler == if i == n then p.regs.ecx else p.sigs[i].handler)
            && (x.outcome == Nothing ==> x.p.regs == p.regs.(eax := value))
            && (x.outcome.Handler? ==> x.p.frames != [] && x.p.frames[|x.p.frames| - 1].ctx == p.regs.(eax := value))
  {
    var b := Before(p, Syscall(ret, m));
    SetBefore(p, ret, m);
    assert Step(p, Syscall(ret, m)) == Leave(b);
    forall i | 0 <= i < 5 ensures Leave(b).p.sigs[i].handler == b.sigs[i].handler { LeaveKeepsHandlers(b, i); }
    LeaveKeepsRegs(b);
  }

  lemma SetBefore(p: Proc, ret: U32, m: Page)
    requires p.regs.eax == 9
    ensures var b := Before(p, Syscall(ret, m)); var n := p.regs.ebx;
            && (forall i :: 0 <= i < 5 ==> b.sigs[i].handler == if i == n then p.regs.ecx else p.sigs[i].handler)
            && b.regs == p.regs.(eax := if n < 5 then 0 else 0xFFFF_FFFF)
  {
  }

  /** Every other call returns its result, and touches no handler. */
  lemma CallReturns(p: Proc, ret: U32, m: Page)
    requires p.regs.eax != 9 && p.regs.eax != 10
    ensures var x := Step(p, Syscall(ret, m));
            && (forall i :: 0 <= i < 5 ==> x.p.sigs[i].handler == p.sigs[i].handler)
            && (x.outcome == Nothing ==> x.p.regs == p.regs.(eax := ret))
            && (x.outcome.Handler? ==> x.p.frames != [] && x.p.frames[|x.p.frames| - 1].ctx == p.regs.(eax := ret))
  {
    var b := p.(mem := m, regs := p.regs.(eax := ret));
    assert Step(p, Syscall(ret, m)) == Leave(b);
    forall i | 0 <= i < 5 ensures Leave(b).p.sigs[i].handler == b.sigs[i].handler { LeaveKeepsHandlers(b, i); }
    LeaveKeepsRegs(b);
  }

  /** A handler set with set_handler is entered, at its own address, when its signal is raised. */
  lemma InstalledIsEntered(p: Proc, n: int, h: U32, ret: U32, m: Page)
    requires Inv(p) && Idle(p.sigs) && Behaved(p, Syscall(ret, m)) && Deliverable(p.regs.esp)
    requires p.regs.eax == 9 && p.regs.ebx == n && p.regs.ecx == h && 2 <= n < 5 && h != 0 && !p.sigs[n].masked
    ensures var p1 := Step(p, Syscall(ret, m)).p; var x := Step(Step(p1, Raise(n)).p, Interrupt);
            x.outcome == Handler(n) && x.p.regs.eip == h && x.p.regs.eax == 0
  {
    Installed(p, n, h, ret, m);
    var p1 := Step(p, Syscall(ret, m)).p;
    HandlerEntered(p1, n, Step(Step(p1, Raise(n)).p, Interrupt));
  }

  lemma Installed(p: Proc, n: int, h: U32, ret: U32, m: Page)
    requires Inv(p) && Idle(p.sigs) && Behaved(p, Syscall(ret, m)) && Deliverable(p.regs.esp)
    requires p.regs.eax == 9 && p.regs.ebx == n && p.regs.ecx == h && 2 <= n < 5 && h != 0 && !p.sigs[n].masked
    ensures var p1 := Step(p, Syscall(ret, m)).p;
            Expecting(p1, n) && p1.sigs[n].handler == h && p1.regs == p.regs.(eax := 0)
  {
    var b := Before(p, Syscall(ret, m));
    assert forall i :: 0 <= i < 5 ==> !b.sigs[i].pending;
    assert Lowest(b.sigs, 0) == 5;
    StepKeeps(p, Syscall(ret, m));
    HandlerIsSet(p, ret, m);
  }

  // ---------------------------------------------------------------- exceptions

  /** A division error is signal 0, every other exception signal 1: the handler is entered if there is
      one that is not running and the stack has room, else the process dies with 256. */
  lemma ExceptionActs(p: Proc, k: int)
    requires Inv(p) && 0 <= k < 32
    ensures var s := if k == 0 then 0 else 1;
            Step(p, Exception(k)).outcome ==
            if p.sigs[s].handler != 0 && !p.sigs[s].masked && 0x800_006C <= p.regs.esp < 0x840_0000 then Handler(s)
            else Killed(s, 256)
  {
    var s := if k == 0 then 0 else 1;
    var t := p.sigs[s := p.sigs[s].(pending := true)];
    Trapped(p, k, s, t);
    assert forall j :: 0 <= j < s ==> !Counts(t, j);
    LowestIsHandled(t, p.mem, p.regs, s);
  }

  lemma Trapped(p: Proc, k: int, s: int, t: Table)
    requires 0 <= k < 32 && s == (if k == 0 then 0 else 1) && t == p.sigs[s := p.sigs[s].(pending := true)]
    ensures Step(p, Exception(k)).outcome == HandleAll(t, p.mem, p.regs).outcome
  {
    assert Before(p, Exception(k)) == p.(sigs := t);
    assert Step(p, Exception(k)) == Leave(p.(sigs := t));
  }

  // ---------------------------------------------------------------- sigreturn

  /** The flags sigreturn takes from the frame: carry, parity, adjust, zero, sign, trap, direction and
      overflow. */
  lemma UserFlags(i: nat)
    requires i < 32
    ensures Bit(EFLAGS_USER, i) <==> i in {0, 2, 4, 6, 7, 8, 10, 11}
  {
    assert Bit(0xDD5, i) == if i == 0 then true else Bit(0x6EA, i - 1);
    assert i >= 1 ==> Bit(0x6EA, i - 1) == if i == 1 then false else Bit(0x375, i - 2);
    assert i >= 2 ==> Bit(0x375, i - 2) == if i == 2 then true else Bit(0x1BA, i - 3);
    assert i >= 3 ==> Bit(0x1BA, i - 3) == if i == 3 then false else Bit(0xDD, i - 4);
    assert i >= 4 ==> Bit(0xDD, i - 4) == if i == 4 then true else Bit(0x6E, i - 5);
    assert i >= 5 ==> Bit(0x6E, i - 5) == if i == 5 then false else Bit(0x37, i - 6);
    assert i >= 6 ==> Bit(0x37, i - 6) == if i == 6 then true else Bit(0x1B, i - 7);
    assert i >= 7 ==> Bit(0x1B, i - 7) == if i == 7 then true else Bit(0xD, i - 8);
    assert i >= 8 ==> Bit(0xD, i - 8) == if i == 8 then true else Bit(6, i - 9);
    assert i >= 9 ==> Bit(6, i - 9) == if i == 9 then false else Bit(3, i - 10);
    assert i >= 10 ==> Bit(3, i - 10) == if i == 10 then true else Bit(1, i - 11);
    assert i >= 11 ==> Bit(1, i - 11) == if i == 11 then true else Bit(0, i - 12);
    if i >= 12 { NoBits(i - 12); }
  }

  /** A bad signal number or frame address changes nothing but EAX, which is -1; otherwise the program
      goes on in user segments. */
  lemma SigreturnChecks(p: Proc)
    ensures var q := Sigreturn(p);
            && (p.regs.ebx >= 5 || p.regs.ecx < 0x800_0000 || p.regs.ecx + 80 >= 0x840_0000
                ==> q == p.(regs := p.regs.(eax := 0xFFFF_FFFF)))
            && (!(p.regs.ebx >= 5 || p.regs.ecx < 0x800_0000 || p.regs.ecx + 80 >= 0x840_0000)
                ==> && q.regs.cs == 0x23 && q.regs.ds == 0x2B && q.regs.es == 0x2B
                    && q.regs.fs == 0x2B && q.regs.gs == 0x2B && q.regs.ss == 0x2B
                    && !q.sigs[p.regs.ebx].masked)
  {
    UserRangeMeans(p.regs.ecx, 80);
  }

  // ---------------------------------------------------------------- a delivery that fails

  /** How far the pushes get: with less than 108 bytes of stack, those that fit; with ESP outside the
      page, none. */
  lemma PartCases(m: Page, r: Regs, n: U32)
    ensures r.esp < 0x800_0014 || r.esp >= 0x840_0000 ==> PushedPart(m, r, n) == m
    ensures 0x800_0014 <= r.esp < 0x800_0064 ==> PushedPart(m, r, n) == Write(m, r.esp - 20 - USER_PAGE_START, SHELLCODE)
    ensures 0x800_0064 <= r.esp < 0x800_0068 ==>
              PushedPart(m, r, n) == Write(Write(m, r.esp - 20 - USER_PAGE_START, SHELLCODE), r.esp - 100 - USER_PAGE_START, EncodeRegs(r))
  {
  }
}
