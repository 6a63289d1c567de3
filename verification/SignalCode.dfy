/** signal.c and the interrupt dispatcher of idt.c as code: in-place writes to the user page,
    the register struct and the signal array of the executing process. */
module SignalCode {
  import opened Machine
  import opened UserMemory
  import opened SignalFrames
  import opened Signals

  class Process {
    const mem: array<Byte>
    const sigs: array<Sig>
    var regs: Regs

    ghost predicate Valid()
      reads this, mem, sigs
    {
      mem.Length == PAGE_SIZE && sigs.Length == 5 && Numbered(sigs[..])
    }

    ghost function View(frames: seq<Live>): Proc
      requires Valid()
      reads this, mem, sigs
    {
      Proc(sigs[..], mem[..], regs, frames)
    }

    /** signal_init, on a zeroed page. */
    constructor (r: Regs)
      ensures Valid() && Inv(View([])) && regs == r && fresh(mem) && fresh(sigs)
    {
      mem := new Byte[PAGE_SIZE](_ => 0);
      sigs := new Sig[5](_ => Sig(0, 0, false, false));
      regs := r;
      new;
      var i := 0;
      while i < 5
        invariant 0 <= i <= 5
        invariant forall j :: 0 <= j < i ==> sigs[j] == Sig(j, 0, false, false)
        invariant mem.Length == PAGE_SIZE && regs == r && fresh(mem) && fresh(sigs)
      {
        sigs[i] := Sig(i, 0, false, false);
        i := i + 1;
      }
    }

    /** copy_to_user. */
    method CopyToUser(dest: U32, src: seq<Byte>) returns (ok: bool)
      requires mem.Length == PAGE_SIZE && |src| < WORD
      modifies mem
      ensures ok <==> UserRange(dest, |src|)
      ensures ok ==> mem[..] == Write(old(mem[..]), dest - USER_PAGE_START, src)
      ensures !ok ==> mem[..] == old(mem[..])
    {
      if !UserRange(dest, |src|) { return false; }
      var off := dest - USER_PAGE_START;
      var i := 0;
      while i < |src|
        invariant 0 <= i <= |src|
        invariant forall j :: 0 <= j < i ==> mem[off + j] == src[j]
        invariant forall j :: 0 <= j < mem.Length && !(off <= j < off + i) ==> mem[j] == old(mem[j])
      {
        mem[off + i] := src[i];
        i := i + 1;
      }
      return true;
    }

    /** copy_from_user. */
    method CopyFromUser(src: U32, n: int) returns (ok: bool, bytes: seq<Byte>)
      requires mem.Length == PAGE_SIZE
      ensures ok <==> UserRange(src, n)
      ensures ok ==> bytes == Read(mem[..], src - USER_PAGE_START, n)
    {
      if !UserRange(src, n) { return false, []; }
      return true, mem[src - USER_PAGE_START..src - USER_PAGE_START + n];
    }

    /** The first three pushes of signal_deliver. */
    method PushContext(signum: U32) returns (ok: bool)
      requires mem.Length == PAGE_SIZE
      modifies mem
      ensures ok <==> UserRange(Sub32(regs.esp, 20), 20) && UserRange(Sub32(regs.esp, 100), 80) && UserRange(Sub32(regs.esp, 104), 4)
      ensures mem[..] == PushedPart(old(mem[..]), regs, signum)
    {
      ok := CopyToUser(Sub32(regs.esp, 20), SHELLCODE);
      if ok { ok := PushRegs(signum); }
    }

    method PushRegs(signum: U32) returns (ok: bool)
      requires mem.Length == PAGE_SIZE
      modifies mem
      ensures ok <==> UserRange(Sub32(regs.esp, 100), 80) && UserRange(Sub32(regs.esp, 104), 4)
      ensures mem[..] == PushedAbove(old(mem[..]), regs, signum)
    {
      ok := CopyToUser(Sub32(regs.esp, 100), EncodeRegs(regs));
      if ok { ok := CopyToUser(Sub32(regs.esp, 104), Bytes4(signum)); }
    }

    /** The four pushes of signal_deliver: together they write one block. */
    method PushFrame(signum: U32) returns (ok: bool)
      requires mem.Length == PAGE_SIZE
      modifies mem
      ensures ok <==> Deliverable(regs.esp)
      ensures ok ==> mem[..] == PushedFrame(old(mem[..]), regs, signum)
      ensures !ok ==> mem[..] == PushedPart(old(mem[..]), regs, signum)
    {
      ghost var m := mem[..];
      DeliverableMeans(regs.esp);
      ok := PushContext(signum);
      if !ok { return; }
      ghost var m3 := mem[..];
      var dest, linkage := Sub32(regs.esp, 108), Bytes4(Sub32(regs.esp, 20));
      ok := CopyToUser(dest, linkage);
      if ok { OneBlock(m, regs, signum, m3, dest, linkage, mem[..]); }
    }

    /** Fills in the operands of the linkage at offset o of the page; the signal number is copied
        from the user stack, 84 bytes below. */
    method PatchLinkage(o: nat, number: seq<Byte>, regsAddr: seq<Byte>)
      requires mem.Length == PAGE_SIZE && 84 <= o && o + 20 < PAGE_SIZE
      requires |number| == 4 && |regsAddr| == 4
      modifies mem
      ensures mem[..] == Operands(old(mem[..]), o, number, Read(old(mem[..]), o - 84, 4), regsAddr)
    {
      PatchWord(o + 1, number);
      ReadBelow(old(mem[..]), o + 1, number, o - 84, 4);
      PatchWord(o + 6, mem[o - 84..o - 80]);
      PatchWord(o + 11, regsAddr);
    }

    method PatchWord(o: nat, word: seq<Byte>)
      requires mem.Length == PAGE_SIZE && o + 4 < PAGE_SIZE && |word| == 4
      modifies mem
      ensures mem[..] == Write(old(mem[..]), o, word)
    {
      var _ := CopyToUser(USER_PAGE_START + o, word);
    }

    /** All of signal_deliver's writing. */
    method WriteFrame(signum: U32) returns (ok: bool)
      requires mem.Length == PAGE_SIZE
      modifies mem
      ensures ok <==> Deliverable(regs.esp)
      ensures ok ==> mem[..] == DeliverMem(old(mem[..]), regs, signum)
      ensures !ok ==> mem[..] == PushedPart(old(mem[..]), regs, signum)
    {
      ghost var m := mem[..];
      ok := PushFrame(signum);
      if !ok { return; }
      ghost var m1 := mem[..];
      var base := regs.esp - 108;
      var number, regsAddr, o := Bytes4(SYS_SIGRETURN), Bytes4(base + 8), base - USER_PAGE_START + 88;
      FramePatched(m, base, signum, regs, number, regsAddr, m1, o);
      PatchLinkage(o, number, regsAddr);
    }

    /** signal_deliver. */
    method Deliver(i: int) returns (ok: bool)
      requires Valid() && 0 <= i < 5
      modifies this`regs, mem, sigs
      ensures Valid()
      ensures ok <==> Deliverable(old(regs.esp))
      ensures ok ==> && mem[..] == DeliverMem(old(mem[..]), old(regs), i)
                     && regs == HandlerRegs(old(regs), old(sigs[i].handler))
                     && sigs[..] == old(sigs[..])[i := old(sigs[i]).(masked := true, pending := false)]
      ensures !ok ==> regs == old(regs) && sigs[..] == old(sigs[..]) && mem[..] == PushedPart(old(mem[..]), regs, i)
    {
      ok := WriteFrame(sigs[i].signum);
      if !ok { return; }
      regs := UserSegments(regs).(eip := sigs[i].handler, esp := regs.esp - 108, eflags := And32(regs.eflags, Not32(EFLAGS_DF)));
      sigs[i] := sigs[i].(masked := true, pending := false);
    }

    /** signal_has_pending. */
    method HasPending() returns (r: bool)
      requires Valid()
      ensures r == Signals.HasPending(sigs[..])
    {
      var i := 0;
      while i < 5
        invariant 0 <= i <= 5
        invariant forall j :: 0 <= j < i ==> !Acts(sigs[..][j])
      {
        if sigs[i].pending {
          if sigs[i].handler != 0 && !sigs[i].masked {
            assert Acts(sigs[..][i]);
            return true;
          }
          if sigs[i].signum == SIG_DIV_ZERO || sigs[i].signum == SIG_SEGFAULT || sigs[i].signum == SIG_INTERRUPT {
            assert Acts(sigs[..][i]);
            return true;
          }
        }
        i := i + 1;
      }
      return false;
    }

    /** signal_handle; process_halt_impl does not return, so a kill is an outcome here. */
    method Handle(i: int) returns (outcome: Outcome)
      requires Valid() && 0 <= i < 5 && sigs[i].pending
      modifies this`regs, mem, sigs
      ensures Valid()
      ensures outcome == Nothing <==> !Acts(old(sigs[..])[i])
      ensures outcome.Handler? <==> HasHandler(old(sigs[i])) && Deliverable(old(regs.esp))
      ensures outcome == Nothing ==> && regs == old(regs) && mem[..] == old(mem[..])
                                     && sigs[..] == old(sigs[..])[i := old(sigs[i]).(pending := false)]
      ensures outcome.Handler? ==> && outcome.signum == i
                                   && mem[..] == DeliverMem(old(mem[..]), old(regs), i)
                                   && regs == HandlerRegs(old(regs), old(sigs[i].handler))
                                   && sigs[..] == old(sigs[..])[i := old(sigs[i]).(masked := true, pending := false)]
      ensures outcome.Killed? ==> && sigs[..] == old(sigs[..]) && regs == old(regs)
                                  && outcome == Killed(i, if !HasHandler(old(sigs[i])) && i == SIG_INTERRUPT then 130 else 256)
                                  && mem[..] == if HasHandler(old(sigs[i])) then PushedPart(old(mem[..]), regs, i) else old(mem[..])
    {
      if sigs[i].handler != 0 && !sigs[i].masked {
        var ok := Deliver(i);
        return if ok then Handler(i) else Killed(i, 256);
      }
      if sigs[i].signum == SIG_DIV_ZERO || sigs[i].signum == SIG_SEGFAULT {
        return Killed(i, 256);
      }
      if sigs[i].signum == SIG_INTERRUPT {
        return Killed(i, 130);
      }
      sigs[i] := sigs[i].(pending := false);
      return Nothing;
    }

    /** signal_handle_all. */
    method HandleAll() returns (outcome: Outcome)
      requires Valid()
      modifies this`regs, mem, sigs
      ensures Valid()
      ensures var x := Signals.HandleAll(old(sigs[..]), old(mem[..]), old(regs));
              outcome == x.outcome && sigs[..] == x.sigs && regs == x.regs && mem[..] == x.mem
    {
      ghost var t := sigs[..];
      var i := 0;
      while i < 5
        invariant 0 <= i <= 5 && Valid()
        invariant sigs[..] == Dropped(t, i)
        invariant regs == old(regs) && mem[..] == old(mem[..])
        invariant Lowest(t, 0) == Lowest(t, i)
      {
        if sigs[i].pending {
          outcome := Handle(i);
          if outcome != Nothing { return; }
        }
        i := i + 1;
      }
      return Nothing;
    }

    /** What signal_sigreturn does with the copied registers. */
    method RestoreRegs(saved: Regs)
      modifies this`regs
      ensures regs == Restored(saved, old(regs))
    {
      var kernelFlags := And32(regs.eflags, Not32(EFLAGS_USER));
      var userFlags := And32(saved.eflags, EFLAGS_USER);
      regs := UserSegments(saved.(eflags := Or32(kernelFlags, userFlags)));
    }

    /** signal_sigreturn; the result is what handle_syscall puts into EAX. */
    method Sigreturn(signum: U32, userRegs: U32) returns (ret: U32)
      requires Valid()
      modifies this`regs, sigs
      ensures Valid()
      ensures signum < 5 && UserRange(userRegs, 80) ==>
                && sigs[..] == old(sigs[..])[signum := old(sigs[signum]).(masked := false)]
                && regs == Restored(DecodeRegs(Read(old(mem[..]), userRegs - USER_PAGE_START, 80)), old(regs))
                && ret == regs.eax
      ensures !(signum < 5 && UserRange(userRegs, 80)) ==>
                sigs[..] == old(sigs[..]) && regs == old(regs) && ret == 0xFFFF_FFFF
    {
      if signum >= 5 { return 0xFFFF_FFFF; }
      var ok, saved := LoadRegs(userRegs);
      if !ok { return 0xFFFF_FFFF; }
      Unmask(signum);
      RestoreRegs(saved);
      return regs.eax;
    }

    /** The copy of the saved registers from the user stack. */
    method LoadRegs(userRegs: U32) returns (ok: bool, saved: Regs)
      requires mem.Length == PAGE_SIZE
      ensures ok <==> UserRange(userRegs, 80)
      ensures ok ==> saved == DecodeRegs(Read(mem[..], userRegs - USER_PAGE_START, 80))
    {
      var bytes;
      ok, bytes := CopyFromUser(userRegs, 80);
      saved := if ok then DecodeRegs(bytes) else regs;
    }

    method Unmask(i: int)
      requires Valid() && 0 <= i < 5
      modifies sigs
      ensures Valid() && sigs[..] == old(sigs[..])[i := old(sigs[i]).(masked := false)]
    {
      sigs[i] := sigs[i].(masked := false);
    }

    /** idt_handle_interrupt, for an interrupt taken in user mode. */
    method HandleInterrupt(intNum: int, ret: U32) returns (outcome: Outcome)
      requires Valid()
      modifies this`regs, mem, sigs
      ensures Valid()
      ensures var x := Leave(Dispatch(old(View([])), intNum, ret));
              outcome == x.outcome && sigs[..] == x.p.sigs && regs == x.p.regs && mem[..] == x.p.mem
    {
      ghost var p := View([]);
      if intNum < 32 {
        var s := if intNum == 0 then SIG_DIV_ZERO else SIG_SEGFAULT;
        sigs[s] := sigs[s].(pending := true);
      } else if intNum == INT_SYSCALL {
        HandleSyscall(ret);
      }
      assert View([]) == Dispatch(p, intNum, ret);
      outcome := HandleAll();
    }

    /** handle_syscall. */
    method HandleSyscall(ret: U32)
      requires Valid()
      modifies this`regs, sigs
      ensures Valid()
      ensures View([]) == Dispatch(old(View([])), INT_SYSCALL, ret)
    {
      if regs.eax == SYS_SIGRETURN {
        var eax := Sigreturn(regs.ebx, regs.ecx);
        regs := regs.(eax := eax);
      } else if regs.eax == SYS_SET_HANDLER {
        if regs.ebx < 5 {
          sigs[regs.ebx] := sigs[regs.ebx].(handler := regs.ecx);
          regs := regs.(eax := 0);
        } else {
          regs := regs.(eax := 0xFFFF_FFFF);
        }
      } else {
        regs := regs.(eax := ret);
      }
    }
  }

  /** The frame before its linkage has its operands. */
  function PushedFrame(m: Page, r: Regs, signum: U32): (m': Page)
    requires Deliverable(r.esp)
  {
    var base := r.esp - 108;
    Write(m, base - USER_PAGE_START, Bytes4(base + 88) + Bytes4(signum) + EncodeRegs(r) + SHELLCODE)
  }

  lemma OneBlock(m: Page, r: Regs, signum: U32, m3: Page, dest: U32, linkage: seq<Byte>, m4: seq<Byte>)
    requires Deliverable(r.esp) && m3 == PushedPart(m, r, signum)
    requires dest == Sub32(r.esp, 108) && linkage == Bytes4(Sub32(r.esp, 20))
    requires m4 == Write(m3, dest - USER_PAGE_START, linkage)
    ensures m4 == PushedFrame(m, r, signum)
  {
    DeliverableMeans(r.esp);
    FourWrites(m, r.esp - 108 - USER_PAGE_START, Bytes4(r.esp - 20), Bytes4(signum), EncodeRegs(r), SHELLCODE);
  }

  lemma FourWrites(m: seq<Byte>, off: int, a: seq<Byte>, b: seq<Byte>, c: seq<Byte>, d: seq<Byte>)
    requires 0 <= off && off + 108 <= |m| && |a| == 4 && |b| == 4 && |c| == 80 && |d| == 20
    ensures Write(Write(Write(Write(m, off + 88, d), off + 8, c), off + 4, b), off, a) == Write(m, off, a + b + c + d)
  {
    WriteAdjacent(m, off + 8, c, d);
    WriteAdjacent(m, off + 4, b, c + d);
    WriteAdjacent(m, off, a, b + (c + d));
    assert a + (b + (c + d)) == a + b + c + d;
  }

  /** Three operands written into a 20-byte code block. */
  function Operands(m: seq<Byte>, off: int, u: seq<Byte>, v: seq<Byte>, w: seq<Byte>): (r: seq<Byte>)
    requires 0 <= off && off + 20 <= |m| && |u| == 4 && |v| == 4 && |w| == 4
    ensures |r| == |m|
  {
    Write(Write(Write(m, off + 1, u), off + 6, v), off + 11, w)
  }

  lemma OperandsOfShellcode(u: seq<Byte>, v: seq<Byte>, w: seq<Byte>)
    requires |u| == 4 && |v| == 4 && |w| == 4
    ensures Operands(SHELLCODE, 0, u, v, w) == [0xB8] + u + [0xBB] + v + [0xB9] + w + [0xCD, 0x80, 0x90, 0x90, 0x90]
  {
  }

  lemma ReadBelow(m: seq<Byte>, at: int, bs: seq<Byte>, i: int, n: int)
    requires 0 <= i && 0 <= n && i + n <= at && at + |bs| <= |m|
    ensures Read(Write(m, at, bs), i, n) == Read(m, i, n)
  {
  }

  lemma WriteBelow(m: seq<Byte>, at: int, bs: seq<Byte>, i: int, j: int)
    requires 0 <= i <= j <= at && at + |bs| <= |m|
    ensures Write(m, at, bs)[i..j] == m[i..j]
  {
  }

  lemma WriteBack(m: seq<Byte>, at: int, bs: seq<Byte>)
    requires 0 <= at && at + |bs| <= |m| && Read(m, at, |bs|) == bs
    ensures Write(m, at, bs) == m
  {
  }

  lemma WriteWithHead(m: seq<Byte>, off: int, head: seq<Byte>, bs: seq<Byte>)
    requires 0 <= off && off + |head| + |bs| <= |m| && Read(m, off, |head|) == head
    ensures Write(m, off + |head|, bs) == Write(m, off, head + bs)
  {
    WriteAdjacent(m, off, head, bs);
    WriteBack(Write(m, off + |head|, bs), off, head) by { WriteBelow(m, off + |head|, bs, off, off + |head|); }
  }

  /** Patching a block just written is patching the block. */
  lemma OperandsInside(m: seq<Byte>, o: int, code: seq<Byte>, u: seq<Byte>, v: seq<Byte>, w: seq<Byte>)
    requires 0 <= o && o + 20 <= |m| && |code| == 20 && |u| == 4 && |v| == 4 && |w| == 4
    ensures Operands(Write(m, o, code), o, u, v, w) == Write(m, o, Operands(code, 0, u, v, w))
  {
    WriteInside(m, o, code, 1, u);
    WriteInside(m, o, Write(code, 1, u), 6, v);
    WriteInside(m, o, Write(Write(code, 1, u), 6, v), 11, w);
  }

  /** Patching inside memory is patching the block that was there. */
  lemma OperandsInPlace(m: seq<Byte>, off: int, head: seq<Byte>, code: seq<Byte>, u: seq<Byte>, v: seq<Byte>, w: seq<Byte>)
    requires 0 <= off && off + |head| + 20 <= |m| && |code| == 20 && |u| == 4 && |v| == 4 && |w| == 4
    requires Read(m, off, |head| + 20) == head + code
    ensures Operands(m, off + |head|, u, v, w) == Write(m, off, head + Operands(code, 0, u, v, w))
  {
    var o := off + |head|;
    assert Read(m, o, 20) == Read(m, off, |head| + 20)[|head|..];
    assert Read(m, off, |head|) == Read(m, off, |head| + 20)[..|head|];
    WriteBack(m, o, code);
    OperandsInside(m, o, code, u, v, w);
    WriteWithHead(m, off, head, Operands(code, 0, u, v, w));
  }

  lemma BlockPatched(m: seq<Byte>, off: int, a: seq<Byte>, b: seq<Byte>, c: seq<Byte>, u: seq<Byte>, w: seq<Byte>)
    requires 0 <= off && off + 108 <= |m| && |a| == 4 && |b| == 4 && |c| == 80 && |u| == 4 && |w| == 4
    ensures var m1 := Write(m, off, a + b + c + SHELLCODE);
            Operands(m1, off + 88, u, Read(m1, off + 88 - 84, 4), w)
            == Write(m, off, a + b + c + ([0xB8] + u + [0xBB] + b + [0xB9] + w + [0xCD, 0x80, 0x90, 0x90, 0x90]))
  {
    var head := a + b + c;
    var m1 := Write(m, off, head + SHELLCODE);
    assert Read(m1, off + 4, 4) == Read(m1, off, 108)[4..8] == b;
    OperandsInPlace(m1, off, head, SHELLCODE, u, b, w);
    OperandsOfShellcode(u, b, w);
    var block := head + Operands(SHELLCODE, 0, u, b, w);
    assert Write(m1, off, block) == Write(m, off, block);
  }

  lemma FramePatched(m: seq<Byte>, base: U32, signum: U32, r: Regs, number: seq<Byte>, regsAddr: seq<Byte>, m1: seq<Byte>, o: nat)
    requires |m| == PAGE_SIZE && Deliverable(r.esp) && base == r.esp - 108
    requires number == Bytes4(SYS_SIGRETURN) && regsAddr == Bytes4(base + 8)
    requires 0 <= base - USER_PAGE_START && base - USER_PAGE_START + 108 <= |m|
    requires m1 == PushedFrame(m, r, signum)
    requires o == base - USER_PAGE_START + 88
    ensures Operands(m1, o, number, Read(m1, o - 84, 4), regsAddr) == DeliverMem(m, r, signum)
  {
    BlockPatched(m, base - USER_PAGE_START, Bytes4(base + 88), Bytes4(signum), EncodeRegs(r), number, regsAddr);
    FrameForm(base, signum, r);
  }

  lemma FrameForm(base: U32, signum: U32, r: Regs)
    requires base + 108 < WORD
    ensures Frame(base, signum, r)
         == Bytes4(base + 88) + Bytes4(signum) + EncodeRegs(r)
            + ([0xB8] + Bytes4(SYS_SIGRETURN) + [0xBB] + Bytes4(signum) + [0xB9] + Bytes4(base + 8) + [0xCD, 0x80, 0x90, 0x90, 0x90])
  {
    var a, b, c, d := Bytes4(base + 88), Bytes4(signum), EncodeRegs(r), Linkage(signum, base + 8);
    assert a + b + (c + d) == a + b + c + d;
  }
}
