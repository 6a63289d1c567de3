/** Three screens on one VGA page (terminal.c): the displayed terminal draws on the VGA page,
    the others on backing pages, and switching swaps contents and pointers. */
module Terminals {
  import opened Machine
  import opened UserMemory
  import opened Screen
  import K = Keyboard

  /** Offsets from VIDEO_PAGE_START: the VGA page, an unused page, then one page per terminal
      (TERMINAL_PAGE_START). */
  const VGA := 0

  /** One video page, of which a screen uses the first 4000 bytes. */
  const VIDEO_PAGE := 0x1000

  function BackingPage(t: int): int { 0x2000 + 0x1000 * t }

  function MemSize(terminals: nat): nat { 0x2000 + 0x1000 * terminals }

  datatype Term = Term(videoMem: int, cur: Cursor, kbd: K.Kbd)

  datatype Video = Video(mem: seq<Byte>, terms: seq<Term>, display: int)

  datatype Event =
    | Print(t: int, cs: seq<Byte>)                      // stdout_write by a process on terminal t
    | Typed(c: Byte)                                    // a character key
    | Clear                                             // CTRL-L
    | SetDisplay(n: int)                                // ALT and a function key
    | Taken(t: int, nbytes: int, beyond: seq<Byte>)     // a stdin_read on terminal t that completes
    | Emptied(t: int)                                   // terminal_clear_input
    | Store(t: int, off: int, b: Byte)                  // a user store to the video page of terminal t

  // ---------------------------------------------------------------- one terminal alone

  /** A terminal with a screen of its own. */
  datatype Emu = Emu(screen: seq<Byte>, cur: Cursor, kbd: K.Kbd)

  datatype Local =
    | LPrint(cs: seq<Byte>)
    | LTyped(c: Byte)
    | LClear
    | LTaken(nbytes: int, beyond: seq<Byte>)
    | LEmptied
    | LStore(off: int, b: Byte)

  ghost predicate EmuOk(e: Emu) {
    |e.screen| == VIDEO_MEM_SIZE && OnScreen(e.cur) && K.KbdOk(e.kbd)
  }

  predicate Echoes(kbd: K.Kbd, lx: int, c: Byte) { K.Erases(kbd, lx, c) || K.Accepts(kbd, c) }

  /** handle_char_input on one terminal. */
  function EmuKey(e: Emu, c: Byte): Emu
    requires |e.screen| == VIDEO_MEM_SIZE && |e.kbd.buf| == 128 && 0 <= e.kbd.count <= 128
  {
    var d := if Echoes(e.kbd, e.cur.lx, c) then Put(e.screen, 0, e.cur, c) else Drawn(e.screen, e.cur);
    Emu(d.mem, d.cur, K.Key(e.kbd, e.cur.lx, c))
  }

  predicate CanTake(kbd: K.Kbd, nbytes: int, beyond: seq<Byte>) {
    && |kbd.buf| == 128 && 0 <= kbd.count <= 128
    && 0 <= nbytes <= 128 && |beyond| >= 128 && K.Poll(kbd, nbytes).Ready?
  }

  function Take(kbd: K.Kbd, nbytes: int, beyond: seq<Byte>): K.Kbd
    requires CanTake(kbd, nbytes, beyond)
  {
    K.Consume(kbd, K.Poll(kbd, nbytes).n, beyond)
  }

  function EmuStep(e: Emu, l: Local): Emu
    requires |e.screen| == VIDEO_MEM_SIZE && |e.kbd.buf| == 128 && 0 <= e.kbd.count <= 128
  {
    match l
    case LPrint(cs) => var d := PutAll(e.screen, 0, e.cur, cs); e.(screen := d.mem, cur := d.cur)
    case LTyped(c) => EmuKey(e, c)
    case LClear => Emu(Blanks(NUM_COLS * NUM_ROWS), Cursor(0, 0, 0), e.kbd.(count := 0))
    case LTaken(nbytes, beyond) => if CanTake(e.kbd, nbytes, beyond) then e.(kbd := Take(e.kbd, nbytes, beyond)) else e
    case LEmptied => e.(kbd := e.kbd.(count := 0))
    case LStore(off, b) => if 0 <= off < VIDEO_MEM_SIZE then e.(screen := e.screen[off := b]) else e
  }

  /** No character of the event is the unsafe one. */
  ghost predicate EmuSafe(e: Emu, l: Local)
    requires |e.screen| == VIDEO_MEM_SIZE
  {
    match l
    case LPrint(cs) => SafeAll(e.screen, 0, e.cur, cs)
    case LTyped(c) => Echoes(e.kbd, e.cur.lx, c) ==> Safe(e.cur, c)
    case _ => true
  }

  lemma EmuStepOk(e: Emu, l: Local)
    requires EmuOk(e) && EmuSafe(e, l)
    ensures EmuOk(EmuStep(e, l))
  {
    match l
    case LPrint(cs) =>
      assert View(e.screen, 0) == e.screen;
      AllLocal(e.screen, 0, e.cur, cs);
    case LTyped(c) =>
      CursorKept(e.screen, 0, e.cur, c);
      K.KeyOk(e.kbd, e.cur.lx, c);
    case LClear =>
    case LTaken(nbytes, beyond) =>
      if CanTake(e.kbd, nbytes, beyond) { K.ConsumeOk(e.kbd, K.Poll(e.kbd, nbytes).n, beyond); }
    case LEmptied =>
    case LStore(off, b) =>
  }

  // ---------------------------------------------------------------- all terminals together

  /** Exactly the displayed terminal points at VGA memory, every other at its own page. */
  ghost predicate Wired(v: Video) {
    && 0 < |v.terms| && |v.mem| == MemSize(|v.terms|) && 0 <= v.display < |v.terms|
    && forall t :: 0 <= t < |v.terms| ==> v.terms[t].videoMem == if t == v.display then VGA else BackingPage(t)
  }

  lemma HoldsAt(v: Video, t: int)
    requires Wired(v) && 0 <= t < |v.terms|
    ensures Holds(v.mem, v.terms[t].videoMem) && Holds(v.mem, BackingPage(t)) && Holds(v.mem, VGA)
  {
  }

  /** Terminal t as its user sees it, or would see it on switching there. */
  ghost function Logical(v: Video, t: int): Emu
    requires Wired(v) && 0 <= t < |v.terms|
  {
    HoldsAt(v, t);
    Emu(View(v.mem, v.terms[t].videoMem), v.terms[t].cur, v.terms[t].kbd)
  }

  ghost predicate VideoOk(v: Video) {
    Wired(v) && forall t :: 0 <= t < |v.terms| ==> EmuOk(Logical(v, t))
  }

  /** terminal_putc_impl over a string, on terminal t. */
  function Draw(v: Video, t: int, cs: seq<Byte>): Video
    requires 0 <= t < |v.terms| && Holds(v.mem, v.terms[t].videoMem)
  {
    var d := PutAll(v.mem, v.terms[t].videoMem, v.terms[t].cur, cs);
    v.(mem := d.mem, terms := v.terms[t := v.terms[t].(cur := d.cur)])
  }

  /** terminal_swap_buffer and the assignments around it. */
  function Swap(v: Video, n: int): Video
    requires 0 <= v.display < |v.terms| && 0 <= n < |v.terms| && |v.mem| == MemSize(|v.terms|)
  {
    var prev := v.display;
    var m1 := Write(v.mem, BackingPage(prev), Read(v.mem, VGA, VIDEO_MEM_SIZE));
    var m2 := Write(m1, VGA, Read(m1, BackingPage(n), VIDEO_MEM_SIZE));
    Video(m2, v.terms[prev := v.terms[prev].(videoMem := BackingPage(prev))][n := v.terms[n].(videoMem := VGA)], n)
  }

  ghost function Step(v: Video, e: Event): Video
    requires VideoOk(v)
  {
    match e
    case Print(t, cs) => if 0 <= t < |v.terms| then HoldsAt(v, t); Draw(v, t, cs) else v
    case Typed(c) =>
      var t := v.display;
      var kbd := v.terms[t].kbd;
      HoldsAt(v, t);
      assert EmuOk(Logical(v, t));
      var v1 := if Echoes(kbd, v.terms[t].cur.lx, c) then Draw(v, t, [c]) else v;
      v1.(terms := v1.terms[t := v1.terms[t].(kbd := K.Key(kbd, v.terms[t].cur.lx, c))])
    case Clear =>
      var t := v.display;
      HoldsAt(v, t);
      v.(mem := Write(v.mem, v.terms[t].videoMem, Blanks(NUM_COLS * NUM_ROWS)),
         terms := v.terms[t := v.terms[t].(cur := Cursor(0, 0, 0), kbd := v.terms[t].kbd.(count := 0))])
    case SetDisplay(n) => if 0 <= n < |v.terms| && n != v.display then Swap(v, n) else v
    case Taken(t, nbytes, beyond) =>
      if 0 <= t < |v.terms| && CanTake(v.terms[t].kbd, nbytes, beyond)
      then v.(terms := v.terms[t := v.terms[t].(kbd := Take(v.terms[t].kbd, nbytes, beyond))]) else v
    case Emptied(t) =>
      if 0 <= t < |v.terms| then v.(terms := v.terms[t := v.terms[t].(kbd := v.terms[t].kbd.(count := 0))]) else v
    case Store(t, off, b) =>
      if 0 <= t < |v.terms| && 0 <= off < VIDEO_PAGE then HoldsAt(v, t); v.(mem := v.mem[v.terms[t].videoMem + off := b]) else v
  }

  /** What an event is to terminal t, if anything. */
  function Share(e: Event, display: int, t: int): seq<Local> {
    match e
    case Print(u, cs) => if u == t then [LPrint(cs)] else []
    case Typed(c) => if display == t then [LTyped(c)] else []
    case Clear => if display == t then [LClear] else []
    case SetDisplay(_) => []
    case Taken(u, nbytes, beyond) => if u == t then [LTaken(nbytes, beyond)] else []
    case Emptied(u) => if u == t then [LEmptied] else []
    case Store(u, off, b) => if u == t && 0 <= off < VIDEO_PAGE then [LStore(off, b)] else []
  }

  /** The event is safe for the terminal it draws on. */
  ghost predicate StepSafe(v: Video, e: Event)
    requires VideoOk(v)
  {
    forall t :: 0 <= t < |v.terms| ==> var s := Share(e, v.display, t); s == [] || EmuSafe(Logical(v, t), s[0])
  }
}
