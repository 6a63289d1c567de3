/** Signal frames (signal.c): the bytes signal_deliver pushes on the user stack, what the
    processor does when it executes them, and what sigreturn makes of them. */
module SignalFrames {
  import opened Machine
  import opened UserMemory

  const USER_CS: U16 := 0x23
  const USER_DS: U16 := 0x2B
  const EFLAGS_USER: U32 := 0xDD5
  const EFLAGS_DF: U32 := 0x400
  const SYS_SIGRETURN: U32 := 10
  const INT_SYSCALL: Byte := 0x80

  /** int_regs_t.  csHigh and ssHigh are the padding after the two last 16-bit fields. */
  datatype Regs = Regs(
    cr0: U32, cr2: U32, cr3: U32, cr4: U32,
    ds: U16, es: U16, fs: U16, gs: U16,
    eax: U32, ebx: U32, ecx: U32, edx: U32, esi: U32, edi: U32, ebp: U32,
    intNum: U32, errorCode: U32,
    eip: U32, cs: U16, csHigh: U16, eflags: U32, esp: U32, ss: U16, ssHigh: U16)

  // ---------------------------------------------------------------- the struct as bytes

  function Pair(lo: U16, hi: U16): U32 { lo + 0x1_0000 * hi }

  function RegWords(r: Regs): (ws: seq<U32>)
    ensures |ws| == 20
  {
    [r.cr0, r.cr2, r.cr3, r.cr4, Pair(r.ds, r.es), Pair(r.fs, r.gs),
     r.eax, r.ebx, r.ecx, r.edx, r.esi, r.edi, r.ebp, r.intNum, r.errorCode,
     r.eip, Pair(r.cs, r.csHigh), r.eflags, r.esp, Pair(r.ss, r.ssHigh)]
  }

  function Lo(w: U32): U16 { w % 0x1_0000 }

  function Hi(w: U32): U16 { w / 0x1_0000 }

  function WordRegs(ws: seq<U32>): Regs
    requires |ws| == 20
  {
    Regs(ws[0], ws[1], ws[2], ws[3], Lo(ws[4]), Hi(ws[4]), Lo(ws[5]), Hi(ws[5]),
         ws[6], ws[7], ws[8], ws[9], ws[10], ws[11], ws[12], ws[13], ws[14],
         ws[15], Lo(ws[16]), Hi(ws[16]), ws[17], ws[18], Lo(ws[19]), Hi(ws[19]))
  }

  function EncodeRegs(r: Regs): (bs: seq<Byte>)
    ensures |bs| == 80
  {
    Pack(RegWords(r))
  }

  function DecodeRegs(bs: seq<Byte>): Regs
    requires |bs| == 80
  {
    WordRegs(Unpack(bs))
  }

  lemma PairRoundTrip(lo: U16, hi: U16)
    ensures Lo(Pair(lo, hi)) == lo && Hi(Pair(lo, hi)) == hi
  {
  }

  lemma RegsRoundTrip(r: Regs)
    ensures DecodeRegs(EncodeRegs(r)) == r
  {
    PackRoundTrip(RegWords(r));
    PairRoundTrip(r.ds, r.es);
    PairRoundTrip(r.fs, r.gs);
    PairRoundTrip(r.cs, r.csHigh);
    PairRoundTrip(r.ss, r.ssHigh);
  }

  // ---------------------------------------------------------------- the frame

  /** movl $SYS_SIGRETURN, %eax; movl $signum, %ebx; movl $regs, %ecx; int $0x80; nop; nop; nop */
  function Linkage(signum: U32, regsAddr: U32): (bs: seq<Byte>)
    ensures |bs| == 20
  {
    [0xB8] + Bytes4(SYS_SIGRETURN) + [0xBB] + Bytes4(signum) + [0xB9] + Bytes4(regsAddr) + [0xCD, 0x80, 0x90, 0x90, 0x90]
  }

  /** The part of a frame that must survive until sigreturn: saved registers, then linkage. */
  function Saved(base: U32, signum: U32, r: Regs): (bs: seq<Byte>)
    requires base + 108 < WORD
    ensures |bs| == 100
  {
    EncodeRegs(r) + Linkage(signum, base + 8)
  }

  /** The whole frame, from its lowest address: return address, argument, Saved. */
  function Frame(base: U32, signum: U32, r: Regs): (bs: seq<Byte>)
    requires base + 108 < WORD
    ensures |bs| == 108
  {
    Bytes4(base + 88) + Bytes4(signum) + Saved(base, signum, r)
  }

  /** The four copies of signal_deliver all succeed exactly when the whole frame fits below ESP
      and ESP itself is below the end of the page. */
  predicate Deliverable(esp: U32) {
    USER_PAGE_START + 108 <= esp < USER_PAGE_END
  }

  lemma DeliverableMeans(esp: U32)
    ensures Deliverable(esp) <==>
              && UserRange(Sub32(esp, 20), 20) && UserRange(Sub32(esp, 100), 80)
              && UserRange(Sub32(esp, 104), 4) && UserRange(Sub32(esp, 108), 4)
  {
  }

  function DeliverMem(m: Page, r: Regs, signum: U32): Page
    requires Deliverable(r.esp)
  {
    Write(m, r.esp - 108 - USER_PAGE_START, Frame(r.esp - 108, signum, r))
  }

  /** The placeholder bytes signal_deliver starts from. */
  const SHELLCODE: seq<Byte> :=
    [0xB8, 0xAA, 0xAA, 0xAA, 0xAA, 0xBB, 0xBB, 0xBB, 0xBB, 0xBB, 0xB9, 0xCC, 0xCC, 0xCC, 0xCC, 0xCD, 0x80, 0x90, 0x90, 0x90]

  /** What the pushes leave behind when one of them fails: the ones before it. */
  function PushedPart(m: Page, r: Regs, signum: U32): Page {
    var linkage := Sub32(r.esp, 20);
    if !UserRange(linkage, 20) then m else PushedAbove(Write(m, linkage - USER_PAGE_START, SHELLCODE), r, signum)
  }

  /** The second and third push. */
  function PushedAbove(m: Page, r: Regs, signum: U32): Page {
    var regs, number := Sub32(r.esp, 100), Sub32(r.esp, 104);
    if !UserRange(regs, 80) then m
    else
      var m1 := Write(m, regs - USER_PAGE_START, EncodeRegs(r));
      if !UserRange(number, 4) then m1 else Write(m1, number - USER_PAGE_START, Bytes4(signum))
  }

  function UserSegments(r: Regs): Regs {
    r.(cs := USER_CS, ds := USER_DS, es := USER_DS, fs := USER_DS, gs := USER_DS, ss := USER_DS)
  }

  function HandlerRegs(r: Regs, handler: U32): Regs
    requires Deliverable(r.esp)
  {
    UserSegments(r).(eip := handler, esp := r.esp - 108, eflags := And32(r.eflags, Not32(EFLAGS_DF)))
  }

  // ---------------------------------------------------------------- executing the linkage

  datatype Instr = MovEax(imm: U32) | MovEbx(imm: U32) | MovEcx(imm: U32) | Int(n: Byte) | Other

  function Load(m: Page, addr: int): U32
    requires USER_PAGE_START <= addr && addr + 4 <= USER_PAGE_END
  {
    Word4(Read(m, addr - USER_PAGE_START, 4))
  }

  function Fetch(m: Page, eip: U32): Instr {
    if !(USER_PAGE_START <= eip && eip + 5 <= USER_PAGE_END) then Other
    else
      var op := m[eip - USER_PAGE_START];
      if op == 0xB8 then MovEax(Load(m, eip + 1))
      else if op == 0xBB then MovEbx(Load(m, eip + 1))
      else if op == 0xB9 then MovEcx(Load(m, eip + 1))
      else if op == 0xCD then Int(m[eip + 1 - USER_PAGE_START])
      else Other
  }

  /** One user instruction of those the linkage is made of; the trap itself leaves EIP behind it. */
  function Exec(m: Page, r: Regs): Regs {
    match Fetch(m, r.eip)
    case MovEax(v) => r.(eax := v, eip := Add32(r.eip, 5))
    case MovEbx(v) => r.(ebx := v, eip := Add32(r.eip, 5))
    case MovEcx(v) => r.(ecx := v, eip := Add32(r.eip, 5))
    case Int(_) => r.(eip := Add32(r.eip, 2))
    case Other => r
  }

  /** ret. */
  function Ret(m: Page, r: Regs): Regs
    requires USER_PAGE_START <= r.esp && r.esp + 4 <= USER_PAGE_END
  {
    r.(eip := Load(m, r.esp), esp := r.esp + 4)
  }

  /** The linkage of a frame at `base` is still in memory, as is the saved context. */
  ghost predicate Intact(m: Page, base: U32, signum: U32, r: Regs) {
    && USER_PAGE_START <= base && base + 108 < USER_PAGE_END
    && Read(m, base + 8 - USER_PAGE_START, 100) == Saved(base, signum, r)
  }

  lemma LinkageBytes(m: Page, base: U32, signum: U32, r: Regs, k: int)
    requires Intact(m, base, signum, r) && 0 <= k < 20
    ensures m[base + 88 + k - USER_PAGE_START] == Linkage(signum, base + 8)[k]
  {
    assert Saved(base, signum, r)[80 + k] == Linkage(signum, base + 8)[k];
    assert Read(m, base + 8 - USER_PAGE_START, 100)[80 + k] == m[base + 88 + k - USER_PAGE_START];
  }

  lemma LinkageWord(m: Page, base: U32, signum: U32, r: Regs, k: int, w: U32)
    requires Intact(m, base, signum, r) && 0 <= k <= 16
    requires Linkage(signum, base + 8)[k..k + 4] == Bytes4(w)
    ensures Load(m, base + 88 + k) == w
  {
    forall i | 0 <= i < 4 ensures Read(m, base + 88 + k - USER_PAGE_START, 4)[i] == Bytes4(w)[i] {
      LinkageBytes(m, base, signum, r, k + i);
      assert Linkage(signum, base + 8)[k..k + 4][i] == Linkage(signum, base + 8)[k + i];
    }
    assert Read(m, base + 88 + k - USER_PAGE_START, 4) == Bytes4(w);
    WordRoundTrip(w);
  }

  /** The bytes of the linkage decode to the four instructions the source names. */
  lemma LinkageDecodes(m: Page, base: U32, signum: U32, r: Regs)
    requires Intact(m, base, signum, r)
    ensures Fetch(m, base + 88) == MovEax(SYS_SIGRETURN)
    ensures Fetch(m, base + 93) == MovEbx(signum)
    ensures Fetch(m, base + 98) == MovEcx(base + 8)
    ensures Fetch(m, base + 103) == Int(INT_SYSCALL)
  {
    var l := Linkage(signum, base + 8);
    LinkageBytes(m, base, signum, r, 0);
    LinkageBytes(m, base, signum, r, 5);
    LinkageBytes(m, base, signum, r, 10);
    LinkageBytes(m, base, signum, r, 15);
    LinkageBytes(m, base, signum, r, 16);
    assert l[1..5] == Bytes4(SYS_SIGRETURN);
    assert l[6..10] == Bytes4(signum);
    assert l[11..15] == Bytes4(base + 8);
    LinkageWord(m, base, signum, r, 1, SYS_SIGRETURN);
    LinkageWord(m, base, signum, r, 6, signum);
    LinkageWord(m, base, signum, r, 11, base + 8);
  }

  /** A handler that returns with the frame intact traps into sigreturn(signum, frame). */
  lemma HandlerReturns(m: Page, base: U32, signum: U32, ctx: Regs, r: Regs)
    requires Intact(m, base, signum, ctx)
    requires r.esp == base && Load(m, base) == base + 88
    ensures var t := Exec(m, Exec(m, Exec(m, Ret(m, r))));
            && Fetch(m, t.eip) == Int(INT_SYSCALL)
            && t == r.(eax := SYS_SIGRETURN, ebx := signum, ecx := base + 8, eip := base + 103, esp := base + 4)
  {
    LinkageDecodes(m, base, signum, ctx);
    var r0 := Ret(m, r);
    var r1 := Exec(m, r0);
    assert r1 == r0.(eax := SYS_SIGRETURN, eip := base + 93);
    var r2 := Exec(m, r1);
    assert r2 == r1.(ebx := signum, eip := base + 98);
    assert Exec(m, r2) == r2.(ecx := base + 8, eip := base + 103);
  }

  // ---------------------------------------------------------------- sigreturn

  /** The context sigreturn builds from the saved one and the current kernel one. */
  function Restored(saved: Regs, k: Regs): Regs {
    UserSegments(saved).(eflags := Or32(And32(k.eflags, Not32(EFLAGS_USER)), And32(saved.eflags, EFLAGS_USER)))
  }

  /** POPF semantics: user-modifiable flags come from the frame, all others stay as they were. */
  lemma FlagsMerge(saved: Regs, k: Regs, i: nat)
    requires i < 32
    ensures Bit(Restored(saved, k).eflags, i) == if Bit(EFLAGS_USER, i) then Bit(saved.eflags, i) else Bit(k.eflags, i)
  {
    var x := And32(k.eflags, Not32(EFLAGS_USER));
    var y := And32(saved.eflags, EFLAGS_USER);
    OrBit(x, y, i);
    AndBit(k.eflags, Not32(EFLAGS_USER), i);
    AndBit(saved.eflags, EFLAGS_USER, i);
    NotBit(EFLAGS_USER, i);
  }

  lemma AndBit(x: U32, y: U32, i: nat)
    requires i < 32
    ensures Bit(And32(x, y), i) == (Bit(x, i) && Bit(y, i))
  {
    BitwiseBit((p, q) => p && q, x, y, 32, i);
  }

  lemma OrBit(x: U32, y: U32, i: nat)
    requires i < 32
    ensures Bit(Or32(x, y), i) == (Bit(x, i) || Bit(y, i))
  {
    BitwiseBit((p, q) => p || q, x, y, 32, i);
  }

  lemma NotBit(x: U32, i: nat)
    requires i < 32
    ensures Bit(Not32(x), i) == !Bit(x, i)
  {
    BitwiseBit((p, _) => !p, x, 0, 32, i);
  }
}
