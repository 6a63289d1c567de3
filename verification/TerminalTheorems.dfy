/** For every interleaving of output, typing, clearing and switching, each terminal behaves as
    if it were alone. */
module TerminalTheorems {
  import opened Machine
  import opened UserMemory
  import opened Screen
  import opened Primitives
  import opened Terminals
  import K = Keyboard

  /** A terminal whose 4000 bytes and own state are untouched looks the same. */
  lemma Untouched(v: Video, v': Video, u: int, t: int)
    requires Wired(v) && Wired(v') && |v'.terms| == |v.terms| && v'.display == v.display
    requires 0 <= u < |v.terms| && 0 <= t < |v.terms| && t != u
    requires SameOutside(v.mem, v'.mem, v.terms[u].videoMem)
    requires v'.terms[t] == v.terms[t]
    ensures Logical(v', t) == Logical(v, t)
  {
    HoldsAt(v, t);
    HoldsAt(v, u);
    var p, q := v.terms[t].videoMem, v.terms[u].videoMem;
    assert p + VIDEO_MEM_SIZE <= q || q + VIDEO_MEM_SIZE <= p;
    assert View(v'.mem, p) == View(v.mem, p);
  }

  lemma DrawOwn(v: Video, t: int, cs: seq<Byte>)
    requires VideoOk(v) && 0 <= t < |v.terms| && Holds(v.mem, v.terms[t].videoMem)
    requires SafeAll(Logical(v, t).screen, 0, Logical(v, t).cur, cs)
    ensures Wired(Draw(v, t, cs))
    ensures Logical(Draw(v, t, cs), t) == EmuStep(Logical(v, t), LPrint(cs))
    ensures SameOutside(v.mem, Draw(v, t, cs).mem, v.terms[t].videoMem)
  {
    assert EmuOk(Logical(v, t));
    AllLocal(v.mem, v.terms[t].videoMem, v.terms[t].cur, cs);
  }

  lemma DrawStep(v: Video, u: int, cs: seq<Byte>, t: int)
    requires VideoOk(v) && 0 <= u < |v.terms| && 0 <= t < |v.terms| && Holds(v.mem, v.terms[u].videoMem)
    requires SafeAll(Logical(v, u).screen, 0, Logical(v, u).cur, cs)
    ensures Wired(Draw(v, u, cs))
    ensures Logical(Draw(v, u, cs), t) == if t == u then EmuStep(Logical(v, t), LPrint(cs)) else Logical(v, t)
  {
    DrawOwn(v, u, cs);
    if t != u { Untouched(v, Draw(v, u, cs), u, t); }
  }

  lemma SetKbd(v: Video, u: int, kbd: K.Kbd, t: int)
    requires Wired(v) && 0 <= u < |v.terms| && 0 <= t < |v.terms|
    ensures var v' := v.(terms := v.terms[u := v.terms[u].(kbd := kbd)]);
            Wired(v') && Logical(v', t) == if t == u then Logical(v, t).(kbd := kbd) else Logical(v, t)
  {
  }

  lemma TypedStep(v: Video, c: Byte, t: int)
    requires VideoOk(v) && StepSafe(v, Typed(c)) && 0 <= t < |v.terms|
    ensures var v' := Step(v, Typed(c));
            Wired(v') && Logical(v', t) == if t == v.display then EmuStep(Logical(v, t), LTyped(c)) else Logical(v, t)
  {
    var d := v.display;
    HoldsAt(v, d);
    var e := Logical(v, d);
    assert EmuOk(e) && EmuSafe(e, LTyped(c)) by { assert Share(Typed(c), v.display, d) == [LTyped(c)]; }
    var kbd := K.Key(e.kbd, e.cur.lx, c);
    if Echoes(e.kbd, e.cur.lx, c) {
      assert SafeAll(e.screen, 0, e.cur, [c]) by { assert [c][1..] == []; }
      DrawStep(v, d, [c], t);
      SetKbd(Draw(v, d, [c]), d, kbd, t);
      assert PutAll(e.screen, 0, e.cur, [c]) == Put(e.screen, 0, e.cur, c) by { assert [c][1..] == []; }
    } else {
      SetKbd(v, d, kbd, t);
    }
  }

  lemma ClearStep(v: Video, t: int)
    requires VideoOk(v) && 0 <= t < |v.terms|
    ensures var v' := Step(v, Clear);
            Wired(v') && Logical(v', t) == if t == v.display then EmuStep(Logical(v, t), LClear) else Logical(v, t)
  {
    var d := v.display;
    HoldsAt(v, d);
    var v' := Step(v, Clear);
    assert SameOutside(v.mem, v'.mem, v.terms[d].videoMem);
    if t != d { Untouched(v, v', d, t); }
  }

  /** Switching moves pictures about; it changes none. */
  lemma SwapStep(v: Video, n: int, t: int)
    requires Wired(v) && 0 <= n < |v.terms| && n != v.display && 0 <= t < |v.terms|
    ensures v.terms[v.display].videoMem == VGA      // the ASSERT in terminal_swap_buffer
    ensures Wired(Swap(v, n)) && Logical(Swap(v, n), t) == Logical(v, t)
  {
    HoldsAt(v, t);
    HoldsAt(v, n);
    HoldsAt(v, v.display);
    var prev := v.display;
    var m1 := Write(v.mem, BackingPage(prev), Read(v.mem, VGA, VIDEO_MEM_SIZE));
    var m2 := Write(m1, VGA, Read(m1, BackingPage(n), VIDEO_MEM_SIZE));
    if t != prev { ElsewhereKept(v.mem, BackingPage(prev), Read(v.mem, VGA, VIDEO_MEM_SIZE), BackingPage(t)); }
    if t != n { ElsewhereKept(m1, VGA, Read(m1, BackingPage(n), VIDEO_MEM_SIZE), BackingPage(t)); }
  }

  lemma ElsewhereKept(m: seq<Byte>, at: int, bs: seq<Byte>, page: int)
    requires 0 <= at && at + |bs| <= |m| && |bs| == VIDEO_MEM_SIZE && Holds(m, page)
    requires at + VIDEO_MEM_SIZE <= page || page + VIDEO_MEM_SIZE <= at
    ensures Read(Write(m, at, bs), page, VIDEO_MEM_SIZE) == Read(m, page, VIDEO_MEM_SIZE)
  {
  }

  /** A store to a terminal's video page is seen on its screen, and on no other. */
  lemma StoreStep(v: Video, u: int, off: int, b: Byte, t: int)
    requires VideoOk(v) && 0 <= u < |v.terms| && 0 <= t < |v.terms| && 0 <= off < VIDEO_PAGE
    ensures var v' := Step(v, Store(u, off, b));
            Wired(v') && Logical(v', t) == if t == u then EmuStep(Logical(v, t), LStore(off, b)) else Logical(v, t)
  {
    HoldsAt(v, u);
    HoldsAt(v, t);
    var v' := Step(v, Store(u, off, b));
    var p, q := v.terms[t].videoMem, v.terms[u].videoMem;
    if t == u {
      assert View(v'.mem, q) == if off < VIDEO_MEM_SIZE then View(v.mem, q)[off := b] else View(v.mem, q);
    } else {
      assert p + VIDEO_PAGE <= q || q + VIDEO_PAGE <= p;
      assert View(v'.mem, p) == View(v.mem, p);
    }
  }

  /** What one event does to terminal t alone. */
  function OwnStep(e: Emu, ls: seq<Local>): Emu
    requires |e.screen| == VIDEO_MEM_SIZE && |e.kbd.buf| == 128 && 0 <= e.kbd.count <= 128
  {
    if ls == [] then e else EmuStep(e, ls[0])
  }

  lemma StepIsolated(v: Video, e: Event, t: int)
    requires VideoOk(v) && StepSafe(v, e) && 0 <= t < |v.terms|
    ensures EmuOk(Logical(v, t))
    ensures Wired(Step(v, e)) && |Step(v, e).terms| == |v.terms|
    ensures Logical(Step(v, e), t) == OwnStep(Logical(v, t), Share(e, v.display, t))
  {
    match e
    case Print(u, cs) => PrintStep(v, u, cs, t);
    case Typed(c) => TypedStep(v, c, t);
    case Clear => ClearStep(v, t);
    case SetDisplay(n) => if 0 <= n < |v.terms| && n != v.display { SwapStep(v, n, t); }
    case Taken(u, nbytes, beyond) => InputStep(v, e, u, t);
    case Emptied(u) => InputStep(v, e, u, t);
    case Store(u, off, b) => if 0 <= u < |v.terms| && 0 <= off < VIDEO_PAGE { StoreStep(v, u, off, b, t); }
  }

  lemma PrintStep(v: Video, u: int, cs: seq<Byte>, t: int)
    requires VideoOk(v) && StepSafe(v, Print(u, cs)) && 0 <= t < |v.terms|
    ensures var w := Step(v, Print(u, cs));
            && Wired(w) && |w.terms| == |v.terms| && EmuOk(Logical(v, t))
            && Logical(w, t) == OwnStep(Logical(v, t), Share(Print(u, cs), v.display, t))
  {
    if 0 <= u < |v.terms| {
      HoldsAt(v, u);
      assert EmuSafe(Logical(v, u), LPrint(cs)) by { assert Share(Print(u, cs), v.display, u) == [LPrint(cs)]; }
      DrawStep(v, u, cs, t);
    }
  }

  lemma InputStep(v: Video, e: Event, u: int, t: int)
    requires VideoOk(v) && 0 <= t < |v.terms| && (e.Taken? || e.Emptied?) && e.t == u
    ensures var w := Step(v, e);
            && Wired(w) && |w.terms| == |v.terms| && EmuOk(Logical(v, t))
            && Logical(w, t) == OwnStep(Logical(v, t), Share(e, v.display, t))
  {
    if 0 <= u < |v.terms| {
      if e.Emptied? {
        SetKbd(v, u, v.terms[u].kbd.(count := 0), t);
      } else if CanTake(v.terms[u].kbd, e.nbytes, e.beyond) {
        SetKbd(v, u, Take(v.terms[u].kbd, e.nbytes, e.beyond), t);
      }
    }
  }

  lemma StepOk(v: Video, e: Event)
    requires VideoOk(v) && StepSafe(v, e)
    ensures VideoOk(Step(v, e)) && |Step(v, e).terms| == |v.terms|
  {
    StepIsolated(v, e, v.display);
    forall t | 0 <= t < |v.terms| ensures EmuOk(Logical(Step(v, e), t)) {
      StepIsolated(v, e, t);
      var s := Share(e, v.display, t);
      if s != [] { EmuStepOk(Logical(v, t), s[0]); }
    }
  }

  /** Every event of es is safe when its turn comes. */
  ghost predicate SafeRun(v: Video, es: seq<Event>)
    requires VideoOk(v)
    decreases |es|
  {
    es == [] || (StepSafe(v, es[0]) && (StepOk(v, es[0]); SafeRun(Step(v, es[0]), es[1..])))
  }

  ghost function After(v: Video, es: seq<Event>): Video
    requires VideoOk(v) && SafeRun(v, es)
    decreases |es|
  {
    if es == [] then v else StepOk(v, es[0]); After(Step(v, es[0]), es[1..])
  }

  /** Which terminal is displayed next. */
  function NextDisplay(e: Event, display: int, terminals: nat): int {
    if e.SetDisplay? && 0 <= e.n < terminals then e.n else display
  }

  /** The events of es that concern terminal t. */
  function Project(es: seq<Event>, display: int, terminals: nat, t: int): seq<Local> {
    if es == [] then []
    else Share(es[0], display, t) + Project(es[1..], NextDisplay(es[0], display, terminals), terminals, t)
  }

  /** A standalone terminal fed a list of events, as far as they go. */
  function EmuRun(e: Emu, ls: seq<Local>): Emu
    decreases |ls|
  {
    if ls == [] || !(|e.screen| == VIDEO_MEM_SIZE && |e.kbd.buf| == 128 && 0 <= e.kbd.count <= 128) then e
    else EmuRun(EmuStep(e, ls[0]), ls[1..])
  }

  /** For every safe interleaving: screen, cursor and input buffer of each terminal are those of
      a standalone terminal fed only that terminal's events. */
  lemma {:induction false} RunIsolated(v: Video, es: seq<Event>, t: int)
    requires VideoOk(v) && SafeRun(v, es) && 0 <= t < |v.terms|
    ensures VideoOk(After(v, es)) && |After(v, es).terms| == |v.terms|
    ensures Logical(After(v, es), t) == EmuRun(Logical(v, t), Project(es, v.display, |v.terms|, t))
    decreases |es|
  {
    if es != [] {
      var w := Step(v, es[0]);
      StepOk(v, es[0]);
      RunIsolated(w, es[1..], t);
      FirstIsolated(v, es, t, w);
    }
  }

  /** The first event of a run and the rest of it, seen by one terminal. */
  lemma FirstIsolated(v: Video, es: seq<Event>, t: int, w: Video)
    requires VideoOk(v) && es != [] && StepSafe(v, es[0]) && 0 <= t < |v.terms| && w == Step(v, es[0]) && Wired(w) && |w.terms| == |v.terms|
    ensures EmuRun(Logical(v, t), Project(es, v.display, |v.terms|, t)) == EmuRun(Logical(w, t), Project(es[1..], w.display, |w.terms|, t))
  {
    StepIsolated(v, es[0], t);
    DisplayAfter(v, es[0]);
    EmuRunPrepend(Logical(v, t), Share(es[0], v.display, t), Project(es[1..], w.display, |v.terms|, t));
  }

  lemma DisplayAfter(v: Video, e: Event)
    requires VideoOk(v)
    ensures Step(v, e).display == NextDisplay(e, v.display, |v.terms|)
  {
  }

  lemma EmuRunPrepend(e: Emu, s: seq<Local>, rest: seq<Local>)
    requires EmuOk(e) && |s| <= 1
    ensures EmuRun(e, s + rest) == EmuRun(OwnStep(e, s), rest)
  {
    if s == [] {
      assert s + rest == rest;
    } else {
      assert (s + rest)[0] == s[0] && (s + rest)[1..] == rest;
    }
  }

  // ---------------------------------------------------------------- what each event shows

  /** A key is drawn exactly when it is kept or takes a character back. */
  lemma KeyShows(e: Emu, c: Byte)
    requires EmuOk(e)
    ensures var r := EmuStep(e, LTyped(c));
            if (c != 8 && e.kbd.count < 127) || (c == 10 && e.kbd.count == 127) || (c == 8 && e.kbd.count > 0 && e.cur.lx > 0)
            then r.screen == Put(e.screen, 0, e.cur, c).mem && r.cur == Put(e.screen, 0, e.cur, c).cur
            else r == e
  {
    K.KeyOk(e.kbd, e.cur.lx, c);
  }

  function Typing(cs: seq<Byte>): seq<Local> { seq(|cs|, i requires 0 <= i < |cs| => LTyped(cs[i])) }

  /** Up to 127 characters typed ahead are all on the screen and all waiting, in order. */
  lemma {:induction false} TypedIsShown(e: Emu, cs: seq<Byte>)
    requires EmuOk(e) && e.kbd.count + |cs| <= 127 && 8 !in cs
    ensures var r := EmuRun(e, Typing(cs)); var d := PutAll(e.screen, 0, e.cur, cs);
            && EmuOk(r) && r.screen == d.mem && r.cur == d.cur
            && K.Pending(r.kbd) == K.Pending(e.kbd) + cs
    decreases |cs|
  {
    if cs != [] {
      var e1 := EmuStep(e, LTyped(cs[0]));
      assert cs[0] != 8 && Safe(e.cur, cs[0]);
      EmuStepOk(e, LTyped(cs[0]));
      KeyShows(e, cs[0]);
      K.KeyOk(e.kbd, e.cur.lx, cs[0]);
      TypedIsShown(e1, cs[1..]);
      assert Typing(cs)[0] == LTyped(cs[0]) && Typing(cs)[1..] == Typing(cs[1..]);
      assert K.Pending(e.kbd) + [cs[0]] + cs[1..] == K.Pending(e.kbd) + cs;
    }
  }

  /** CTRL-L leaves a blank screen, the cursor in the corner and nothing waiting. */
  lemma ClearShows(e: Emu, i: int)
    requires EmuOk(e) && 0 <= i < NUM_COLS * NUM_ROWS
    ensures var r := EmuStep(e, LClear);
            r.screen[2 * i] == 0x20 && r.screen[2 * i + 1] == 7 && r.cur == Cursor(0, 0, 0) && K.Pending(r.kbd) == []
  {
  }

  /** Reading takes characters and clearing the input drops them; neither is seen on the screen. */
  lemma InputShows(e: Emu, nbytes: int, beyond: seq<Byte>)
    requires EmuOk(e) && CanTake(e.kbd, nbytes, beyond)
    ensures var r := EmuStep(e, LTaken(nbytes, beyond));
            r.screen == e.screen && r.cur == e.cur && r.kbd.count == e.kbd.count - K.Poll(e.kbd, nbytes).n
    ensures EmuStep(e, LEmptied) == e.(kbd := e.kbd.(count := 0))
  {
  }

  // ---------------------------------------------------------------- when runs are safe

  /** logical_x after each character of cs stays below 2000. */
  ghost predicate ShortLines(mem: seq<Byte>, cur: Cursor, cs: seq<Byte>)
    requires |mem| == VIDEO_MEM_SIZE
    decreases |cs|
  {
    cs == [] ||
    var d := Put(mem, 0, cur, cs[0]);
    d.cur.lx < NUM_COLS * NUM_ROWS && ShortLines(d.mem, d.cur, cs[1..])
  }

  /** Programs that never write a line of 2000 characters are always safe. */
  lemma {:induction false} ShortLinesAreSafe(mem: seq<Byte>, cur: Cursor, cs: seq<Byte>)
    requires |mem| == VIDEO_MEM_SIZE && Anchored(cur) && ShortLines(mem, cur, cs)
    ensures SafeAll(mem, 0, cur, cs) && Anchored(PutAll(mem, 0, cur, cs).cur)
    decreases |cs|
  {
    if cs != [] {
      AnchoredKept(mem, 0, cur, cs[0]);
      var d := Put(mem, 0, cur, cs[0]);
      ShortLinesAreSafe(d.mem, d.cur, cs[1..]);
    }
  }

  /** A keystroke cannot be unsafe on an anchored cursor. */
  lemma TypingIsSafe(e: Emu, c: Byte)
    requires |e.screen| == VIDEO_MEM_SIZE && Anchored(e.cur)
    ensures EmuSafe(e, LTyped(c))
  {
    AnchoredKept(e.screen, 0, e.cur, c);
  }

  ghost predicate AllAnchored(v: Video) { forall t :: 0 <= t < |v.terms| ==> Anchored(v.terms[t].cur) }

  /** No line of any terminal reaches 2000 characters during e. */
  ghost predicate ShortFor(e: Emu, l: Local)
    requires |e.screen| == VIDEO_MEM_SIZE
  {
    match l
    case LPrint(cs) => ShortLines(e.screen, e.cur, cs)
    case LTyped(c) => Echoes(e.kbd, e.cur.lx, c) ==> Put(e.screen, 0, e.cur, c).cur.lx < NUM_COLS * NUM_ROWS
    case _ => true
  }

  ghost predicate ShortEvent(v: Video, e: Event)
    requires VideoOk(v)
  {
    forall t :: 0 <= t < |v.terms| ==> var s := Share(e, v.display, t); s == [] || ShortFor(Logical(v, t), s[0])
  }

  lemma ShortEmu(e: Emu, l: Local)
    requires EmuOk(e) && Anchored(e.cur) && ShortFor(e, l)
    ensures EmuSafe(e, l) && Anchored(EmuStep(e, l).cur)
  {
    match l
    case LPrint(cs) => ShortLinesAreSafe(e.screen, e.cur, cs);
    case LTyped(c) => AnchoredKept(e.screen, 0, e.cur, c);
    case _ =>
  }

  lemma ShortStep(v: Video, e: Event)
    requires VideoOk(v) && AllAnchored(v) && ShortEvent(v, e)
    ensures StepSafe(v, e) && VideoOk(Step(v, e)) && AllAnchored(Step(v, e))
  {
    forall t | 0 <= t < |v.terms|
      ensures var s := Share(e, v.display, t); s == [] || (EmuSafe(Logical(v, t), s[0]) && Anchored(EmuStep(Logical(v, t), s[0]).cur))
    {
      var s := Share(e, v.display, t);
      if s != [] { ShortEmu(Logical(v, t), s[0]); }
    }
    StepOk(v, e);
    forall t | 0 <= t < |v.terms| ensures Anchored(Step(v, e).terms[t].cur) {
      StepIsolated(v, e, t);
      assert Logical(Step(v, e), t).cur == Step(v, e).terms[t].cur;
    }
  }

  ghost predicate ShortRun(v: Video, es: seq<Event>)
    requires VideoOk(v) && AllAnchored(v)
    decreases |es|
  {
    es == [] || (ShortEvent(v, es[0]) && (ShortStep(v, es[0]); ShortRun(Step(v, es[0]), es[1..])))
  }

  /** Every interleaving in which no logical line of any terminal reaches 2000 characters is safe, so
      that all of the above holds of it. */
  lemma {:induction false} ShortRunsAreSafe(v: Video, es: seq<Event>)
    requires VideoOk(v) && AllAnchored(v) && ShortRun(v, es)
    ensures SafeRun(v, es)
    decreases |es|
  {
    if es != [] {
      ShortStep(v, es[0]);
      ShortRunsAreSafe(Step(v, es[0]), es[1..]);
    }
  }

  /** terminal_init: cleared pages, terminal 0 displayed. */
  function Initial(mem: seq<Byte>, kbd: K.Kbd, terminals: nat): Video
    requires |mem| == MemSize(terminals)
  {
    Video(mem, seq(terminals, t => Term(if t == 0 then VGA else BackingPage(t), Cursor(0, 0, 0), kbd)), 0)
  }

  lemma InitialOk(mem: seq<Byte>, kbd: K.Kbd, terminals: nat)
    requires 0 < terminals && |mem| == MemSize(terminals) && K.KbdOk(kbd)
    ensures VideoOk(Initial(mem, kbd, terminals)) && AllAnchored(Initial(mem, kbd, terminals))
  {
    var v := Initial(mem, kbd, terminals);
    forall t | 0 <= t < terminals ensures Wired(v) && EmuOk(Logical(v, t)) {
      HoldsAt(v, t);
    }
  }

  /** What isolation does not survive: 2000 characters and 1969 backspaces on a background
      terminal blank the last character cell of the background terminal before it. */
  lemma LongLineReachesNeighbour(v: Video, t: int, c: Byte)
    requires Wired(v) && 0 < t < |v.terms| && v.display != t && v.display != t - 1
    requires v.terms[t].cur == Cursor(0, 0, 0)
    requires c != NEWLINE && c != RETURN && c != BACKSPACE
    requires Holds(v.mem, v.terms[t].videoMem)
    requires Logical(v, t - 1).screen[3998] != SPACE
    ensures var w := Draw(v, t, Repeated(c, 2000) + Repeated(BACKSPACE, 1968) + [BACKSPACE]);
            Wired(w) && Logical(w, t - 1) != Logical(v, t - 1)
  {
    HoldsAt(v, t - 1);
    var ptr := v.terms[t].videoMem;
    var cs := Repeated(c, 2000) + Repeated(BACKSPACE, 1968);
    BackspaceEscapes(v.mem, ptr, c);
    PutAllSplit(v.mem, ptr, Cursor(0, 0, 0), cs, [BACKSPACE]);
    var d := PutAll(v.mem, ptr, Cursor(0, 0, 0), cs);
    assert [BACKSPACE][1..] == [];
    var r := Put(d.mem, ptr, d.cur, BACKSPACE);
    assert PutAll(d.mem, ptr, d.cur, [BACKSPACE]) == r;
    var w := Draw(v, t, cs + [BACKSPACE]);
    assert Logical(w, t - 1).screen[3998] == w.mem[ptr - 98] == SPACE;
  }
}
