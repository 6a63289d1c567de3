/** terminal.c as code: the cursor machine, the buffer swap and the input buffer, in place. */
module TerminalCode {
  import opened Machine
  import opened UserMemory
  import opened Screen
  import opened Terminals
  import opened TerminalTheorems
  import opened Primitives
  import opened FileSystem
  import opened Waiting
  import G = Signals
  import K = Keyboard

  class Console {
    const mem: array<Byte>      // video memory from VIDEO_PAGE_START on
    const terms: array<Term>    // terminal_states
    var display: int            // display_terminal

    ghost function View(): Video
      reads this, mem, terms
    {
      Video(mem[..], terms[..], display)
    }

    /** terminal_init. */
    constructor (terminals: nat)
      requires 0 < terminals
      ensures mem.Length == MemSize(terminals) && VideoOk(View())
      ensures View() == Initial(mem[..], K.Kbd(seq(128, _ => 0), 0), terminals)
      ensures fresh(mem) && fresh(terms)
      ensures forall t :: 0 <= t < terms.Length ==>
                && Holds(mem[..], BackingPage(t))
                && Read(mem[..], BackingPage(t), VIDEO_MEM_SIZE) == Blanks(NUM_COLS * NUM_ROWS)
    {
      mem := new Byte[MemSize(terminals)](_ => 0);
      terms := new Term[terminals](t => Term(BackingPage(t), Cursor(0, 0, 0), K.Kbd(seq(128, _ => 0), 0)));
      display := 0;
      new;
      var i := 0;
      while i < terminals
        invariant 0 <= i <= terminals == terms.Length && mem.Length == MemSize(terminals) && display == 0
        invariant forall t :: 0 <= t < terminals ==> terms[t] == Term(BackingPage(t), Cursor(0, 0, 0), K.Kbd(seq(128, _ => 0), 0))
        invariant forall t :: 0 <= t < i ==> Read(mem[..], BackingPage(t), VIDEO_MEM_SIZE) == Blanks(NUM_COLS * NUM_ROWS)
      {
        ghost var m := mem[..];
        ClearRegion(BackingPage(i), NUM_COLS * NUM_ROWS);
        forall t | 0 <= t < i ensures Read(mem[..], BackingPage(t), VIDEO_MEM_SIZE) == Blanks(NUM_COLS * NUM_ROWS) {
          assert Read(mem[..], BackingPage(t), VIDEO_MEM_SIZE) == Read(m, BackingPage(t), VIDEO_MEM_SIZE);
        }
        i := i + 1;
      }
      terms[0] := terms[0].(videoMem := VGA);
      InitialOk(mem[..], K.Kbd(seq(128, _ => 0), 0), terminals);
      assert terms[..] == Initial(mem[..], K.Kbd(seq(128, _ => 0), 0), terminals).terms;
    }

    /** vga_clear_region. */
    method ClearRegion(ptr: int, numChars: nat)
      requires 0 <= ptr && ptr + 2 * numChars <= mem.Length
      modifies mem
      ensures mem[..] == Write(old(mem[..]), ptr, Blanks(numChars))
    {
      var i := 0;
      while i < numChars
        invariant 0 <= i <= numChars
        invariant forall j :: 0 <= j < 2 * i ==> mem[ptr + j] == Blanks(numChars)[j]
        invariant forall j :: 0 <= j < mem.Length && !(ptr <= j < ptr + 2 * i) ==> mem[j] == old(mem[j])
      {
        mem[ptr + 2 * i] := SPACE;
        mem[ptr + 2 * i + 1] := ATTRIB;
        i := i + 1;
      }
    }

    /** terminal_scroll_down. */
    method ScrollDown(ptr: int)
      requires Holds(mem[..], ptr)
      modifies mem
      ensures mem[..] == Scroll(old(mem[..]), ptr)
    {
      ghost var m := mem[..];
      MemMove(mem, ptr, ptr + ROW_BYTES, VIDEO_MEM_SIZE - ROW_BYTES);
      ClearRegion(ptr + VIDEO_MEM_SIZE - ROW_BYTES, NUM_COLS);
      ScrollTwice(m, ptr, Read(m, ptr + ROW_BYTES, VIDEO_MEM_SIZE - ROW_BYTES), Blanks(NUM_COLS));
    }

    /** terminal_write_char. */
    method WriteChar(ptr: int, cur: Cursor, c: Byte)
      modifies mem
      ensures mem[..] == PutCell(old(mem[..]), ptr, cur, c)
    {
      var i := ptr + 2 * (cur.y * NUM_COLS + cur.x);
      if 0 <= i && i + 2 <= mem.Length {
        mem[i] := c;
        mem[i + 1] := ATTRIB;
      }
    }

    /** The end of both drawing branches of terminal_putc_impl. */
    method ScrollIfNeeded(ptr: int, cur: Cursor) returns (r: Cursor)
      requires Holds(mem[..], ptr)
      modifies mem
      ensures Drawn(mem[..], r) == ScrollIfBelow(Drawn(old(mem[..]), cur), ptr)
    {
      r := cur;
      if cur.y >= NUM_ROWS {
        ScrollDown(ptr);
        r := cur.(y := cur.y - 1);
      }
    }

    /** The backspace branch of terminal_putc_impl. */
    method Erase(ptr: int, at: Cursor) returns (cur: Cursor)
      modifies mem
      ensures cur == Retreat(at) && mem[..] == PutCell(old(mem[..]), ptr, Retreat(at), SPACE)
    {
      cur := Cursor(at.lx - 1, at.x - 1, at.y);
      if cur.x < 0 {
        cur := Cursor(cur.lx, cur.x + NUM_COLS, cur.y - 1);
      }
      WriteChar(ptr, cur, SPACE);
    }

    /** The default branch of terminal_putc_impl, up to scrolling. */
    method Print(ptr: int, at: Cursor, c: Byte) returns (cur: Cursor)
      modifies mem
      ensures cur == Advance(at) && mem[..] == PutCell(old(mem[..]), ptr, at, c)
    {
      WriteChar(ptr, at, c);
      cur := Cursor(at.lx + 1, at.x + 1, at.y);
      if cur.x >= NUM_COLS {
        cur := Cursor(cur.lx, cur.x - NUM_COLS, cur.y + 1);
      }
    }

    /** terminal_putc_impl, on a given piece of memory and cursor. */
    method PutcAt(ptr: int, at: Cursor, c: Byte) returns (cur: Cursor)
      requires Holds(mem[..], ptr)
      modifies mem
      ensures Drawn(mem[..], cur) == Put(old(mem[..]), ptr, at, c)
    {
      cur := at;
      if c == NEWLINE {
        cur := ScrollIfNeeded(ptr, Cursor(0, 0, at.y + 1));
      } else if c == RETURN {
        cur := Cursor(0, 0, at.y);
      } else if c == BACKSPACE {
        if at.lx > 0 {
          cur := Erase(ptr, at);
        }
      } else {
        cur := Print(ptr, at, c);
        cur := ScrollIfNeeded(ptr, cur);
      }
    }

    method Putc(t: int, c: Byte)
      requires 0 <= t < terms.Length && Holds(mem[..], terms[t].videoMem)
      modifies mem, terms
      ensures var d := Put(old(mem[..]), old(terms[t].videoMem), old(terms[t].cur), c);
              mem[..] == d.mem && terms[..] == old(terms[..])[t := old(terms[t]).(cur := d.cur)]
    {
      var cur := PutcAt(terms[t].videoMem, terms[t].cur, c);
      terms[t] := terms[t].(cur := cur);
    }

    /** terminal_stdout_write: all of a readable buffer is drawn, nothing of any other. */
    method StdoutWrite(t: int, page: Page, ptr: U32, nbytes: int) returns (r: int)
      requires 0 <= t < terms.Length && Holds(mem[..], terms[t].videoMem)
      modifies mem, terms
      ensures UserRange(ptr, nbytes) ==>
                && r == nbytes && 0 <= ptr - USER_PAGE_START && ptr - USER_PAGE_START + nbytes <= |page|
                && View() == Draw(old(View()), t, Read(page, ptr - USER_PAGE_START, nbytes))
      ensures !UserRange(ptr, nbytes) ==> r == -1 && View() == old(View())
    {
      if !UserRange(ptr, nbytes) { return -1; }
      UserRangeMeans(ptr, nbytes);
      WriteChars(t, page[ptr - USER_PAGE_START..ptr - USER_PAGE_START + nbytes]);
      return nbytes;
    }

    /** Its loop. */
    method WriteChars(t: int, cs: seq<Byte>)
      requires 0 <= t < terms.Length && Holds(mem[..], terms[t].videoMem)
      modifies mem, terms
      ensures View() == Draw(old(View()), t, cs)
    {
      ghost var m, k := mem[..], terms[t];
      var i := 0;
      while i < |cs|
        invariant 0 <= i <= |cs|
        invariant Holds(mem[..], k.videoMem)
        invariant terms[..] == old(terms[..])[t := k.(cur := terms[t].cur)]
        invariant PutAll(mem[..], k.videoMem, terms[t].cur, cs[i..]) == PutAll(m, k.videoMem, k.cur, cs)
      {
        Putc(t, cs[i]);
        assert cs[i..][1..] == cs[i + 1..];
        i := i + 1;
      }
    }

    /** terminal_swap_buffer. */
    method SwapBuffer(prev: int, n: int)
      requires 0 <= prev < terms.Length && 0 <= n < terms.Length && n != prev
      requires mem.Length == MemSize(terms.Length) && display == n
      requires terms[prev].videoMem == VGA     // the ASSERT
      modifies mem, terms
      ensures View() == Swap(old(View()).(display := prev), n)
    {
      MemCpy(mem, BackingPage(prev), VGA, VIDEO_MEM_SIZE);
      terms[prev] := terms[prev].(videoMem := BackingPage(prev));
      MemCpy(mem, VGA, BackingPage(n), VIDEO_MEM_SIZE);
      terms[n] := terms[n].(videoMem := VGA);
    }

    /** set_display_terminal. */
    method SetDisplay(n: int)
      requires VideoOk(View()) && 0 <= n < terms.Length
      modifies this, mem, terms
      ensures View() == Step(old(View()), Event.SetDisplay(n))
      ensures VideoOk(View()) && forall t :: 0 <= t < terms.Length ==> Logical(View(), t) == Logical(old(View()), t)
    {
      ghost var v := View();
      if n != display {
        var prev := display;
        display := n;
        SwapBuffer(prev, n);
      }
      Switched(v, n);
    }

    /** handle_char_input. */
    method HandleChar(c: Byte)
      requires VideoOk(View())
      modifies mem, terms
      ensures View() == Step(old(View()), Typed(c))
    {
      ghost var v := View();
      var t := display;
      HoldsAt(v, t);
      assert EmuOk(Logical(v, t));
      var k := terms[t].kbd;
      if c == BACKSPACE && k.count > 0 && terms[t].cur.lx > 0 {
        terms[t] := terms[t].(kbd := k.(count := k.count - 1));
        Putc(t, c);
        OneChar(v, t, c);
      } else if (c != BACKSPACE && k.count < K.KEYBOARD_BUF_SIZE - 1) || (c == NEWLINE && k.count < K.KEYBOARD_BUF_SIZE) {
        terms[t] := terms[t].(kbd := K.Kbd(k.buf[k.count := c], k.count + 1));
        Putc(t, c);
        OneChar(v, t, c);
      }
      assert terms[..] == Step(v, Typed(c)).terms;
    }

    /** terminal_clear. */
    method ClearDisplay()
      requires VideoOk(View())
      modifies mem, terms
      ensures View() == Step(old(View()), Clear)
    {
      ghost var v := View();
      HoldsAt(v, display);
      ClearRegion(terms[display].videoMem, NUM_COLS * NUM_ROWS);
      terms[display] := terms[display].(cur := Cursor(0, 0, 0));
      terms[display] := terms[display].(kbd := terms[display].kbd.(count := 0));
    }

    /** The end of terminal_stdin_read, once terminal_wait_kbd_input has returned n: the copy to the
        caller's buffer and the shift of what is left. */
    method TakeInput(t: int, nbytes: int, n: int, beyond: seq<Byte>, page: array<Byte>, ptr: U32)
      requires VideoOk(View()) && 0 <= t < terms.Length && page != mem && page.Length == PAGE_SIZE
      requires CanTake(terms[t].kbd, nbytes, beyond) && K.Poll(terms[t].kbd, nbytes) == Ready(n)
      requires UserRange(ptr, nbytes)
      modifies terms, page
      ensures View() == Step(old(View()), Taken(t, nbytes, beyond))
      ensures 0 <= n <= nbytes && 0 <= ptr - USER_PAGE_START && ptr - USER_PAGE_START + n <= |old(page[..])|
      ensures n <= |old(K.Pending(terms[t].kbd))|
      ensures page[..] == Write(old(page[..]), ptr - USER_PAGE_START, old(K.Pending(terms[t].kbd))[..n])
    {
      UserRangeMeans(ptr, nbytes);
      var k := terms[t].kbd;
      PollBound(k, nbytes);
      CopyOut(page, ptr - USER_PAGE_START, k, n);
      var buf := ShiftDown(k.buf, n, beyond);
      terms[t] := terms[t].(kbd := K.Kbd(buf, k.count - n));
    }

    /** terminal_stdin_read, over everything that happens while it waits: looks are what the rounds of
        the loop see of this terminal, the last of them what is there now. */
    method StdinRead(t: int, nbytes: int, looks: seq<Glimpse<K.Kbd>>, beyond: seq<Byte>, page: array<Byte>, ptr: U32)
      returns (r: Ret)
      requires VideoOk(View()) && 0 <= t < terms.Length && page != mem && page.Length == PAGE_SIZE
      requires looks != [] && looks[|looks| - 1].seen == terms[t].kbd && |beyond| >= 128
      requires Sane(looks)
      requires forall q :: 0 <= q < |looks| - 1 ==> Fruitless(Rounds(looks, Clamped(nbytes))[q])
      modifies terms, page
      ensures var last := Rounds(looks, Clamped(nbytes))[|looks| - 1];
              if !UserRange(ptr, nbytes) then
                r == Ret(-1) && View() == old(View()) && page[..] == old(page[..])
              else if last.wait.Ready? then
                && r == Ret(last.wait.n) && 0 <= last.wait.n <= |old(K.Pending(terms[t].kbd))|
                && View() == Step(old(View()), Taken(t, Clamped(nbytes), beyond))
                && 0 <= ptr - USER_PAGE_START && ptr - USER_PAGE_START + last.wait.n <= |old(page[..])|
                && page[..] == Write(old(page[..]), ptr - USER_PAGE_START, old(K.Pending(terms[t].kbd))[..last.wait.n])
              else
                && r == (if G.HasPending(last.sigs) then Ret(-1) else Sleeping)
                && View() == old(View()) && page[..] == old(page[..])
    {
      if !UserRange(ptr, nbytes) { return Ret(-1); }
      UserRangeMeans(ptr, nbytes);
      var n := Clamped(nbytes);
      UserRangeMeans(ptr, n);
      assert EmuOk(Logical(View(), t));
      var w := WaitKbdInput(looks, n);
      ghost var rounds := Rounds(looks, n);
      StoppedLast(rounds, w);
      if w.Aborted? { return Ret(-1); }
      if w.StillWaiting? { return Sleeping; }
      TakeInput(t, n, w.n, beyond, page, ptr);
      return Ret(w.n);
    }

    /** terminal_clear_input, as far as the keyboard goes. */
    method ClearInput(t: int)
      requires VideoOk(View()) && 0 <= t < terms.Length
      modifies terms
      ensures View() == Step(old(View()), Emptied(t))
    {
      terms[t] := terms[t].(kbd := terms[t].kbd.(count := 0));
    }
  }

  /** The memmove of n bytes from index n to index 0, reading past the buffer if n is large. */
  method ShiftDown(buf: seq<Byte>, n: nat, beyond: seq<Byte>) returns (r: seq<Byte>)
    requires n <= |buf| == K.KEYBOARD_BUF_SIZE <= |beyond|
    ensures r == (buf + beyond)[n..2 * n] + buf[n..]
  {
    r := buf;
    var i := 0;
    while i < n
      invariant 0 <= i <= n && |r| == |buf|
      invariant forall j :: 0 <= j < |buf| ==> r[j] == if j < i then (buf + beyond)[j + n] else buf[j]
    {
      r := r[i := if n + i < |r| then r[n + i] else beyond[n + i - |r|]];
      i := i + 1;
    }
  }

  /** Only allow reads up to the end of the buffer. */
  function Clamped(nbytes: int): int { if nbytes > K.KEYBOARD_BUF_SIZE then K.KEYBOARD_BUF_SIZE else nbytes }

  /** However much more is asked for, a full buffer satisfies the reader with all 128 characters. */
  lemma FullBufferSatisfies(k: K.Kbd, nbytes: int)
    requires K.KbdOk(k) && k.count == 128 && nbytes >= 128
    ensures K.Poll(k, Clamped(nbytes)) == Ready(128)
  {
  }

  predicate Sane(looks: seq<Glimpse<K.Kbd>>) {
    forall r :: 0 <= r < |looks| ==> 0 <= looks[r].seen.count <= |looks[r].seen.buf|
  }

  function Rounds(looks: seq<Glimpse<K.Kbd>>, nbytes: int): seq<Round>
    requires Sane(looks)
  {
    seq(|looks|, r requires 0 <= r < |looks| => Round(K.Poll(looks[r].seen, nbytes), looks[r].sigs))
  }

  /** terminal_wait_kbd_input over everything the interrupts may do between its rounds: it stops at
      the first round that has enough input or a newline, or failing that a pending signal. */
  method WaitKbdInput(looks: seq<Glimpse<K.Kbd>>, nbytes: int) returns (w: Waited)
    requires Sane(looks)
    ensures Stopped(Rounds(looks, nbytes), w)
  {
    var r := 0;
    while r < |looks|
      invariant 0 <= r <= |looks|
      invariant forall q :: 0 <= q < r ==> Fruitless(Rounds(looks, nbytes)[q])
    {
      var k := looks[r].seen;
      if nbytes <= k.count { return Returned(nbytes, r); }
      var i := 0;
      while i < k.count
        invariant 0 <= i <= k.count
        invariant forall j :: 0 <= j < i ==> k.buf[j] != NEWLINE
      {
        if k.buf[i] == NEWLINE { return Returned(i + 1, r); }
        i := i + 1;
      }
      if G.HasPending(looks[r].sigs) { return Aborted(r); }
      r := r + 1;
    }
    return StillWaiting;
  }

  lemma StoppedLast(rounds: seq<Round>, w: Waited)
    requires Stopped(rounds, w) && rounds != [] && forall q :: 0 <= q < |rounds| - 1 ==> Fruitless(rounds[q])
    ensures w == match rounds[|rounds| - 1].wait
                 case Ready(n) => Returned(n, |rounds| - 1)
                 case Blocked => if G.HasPending(rounds[|rounds| - 1].sigs) then Aborted(|rounds| - 1) else StillWaiting
  {
    var last := |rounds| - 1;
    var w' := match rounds[last].wait
              case Ready(n) => Returned(n, last)
              case Blocked => if G.HasPending(rounds[last].sigs) then Aborted(last) else StillWaiting;
    StoppedOnce(rounds, w, w');
  }

  lemma PollBound(k: K.Kbd, nbytes: int)
    requires 0 <= k.count <= |k.buf| && 0 <= nbytes && K.Poll(k, nbytes).Ready?
    ensures 0 <= K.Poll(k, nbytes).n <= k.count && K.Poll(k, nbytes).n <= nbytes
  {
  }

  /** copy_to_user of the first n waiting characters. */
  method CopyOut(page: array<Byte>, at: nat, k: K.Kbd, n: int)
    requires 0 <= n <= k.count <= |k.buf| && at + n <= page.Length
    modifies page
    ensures page[..] == Write(old(page[..]), at, K.Pending(k)[..n])
  {
    ghost var m := page[..];
    var _ := Append(page, page.Length, at, k.buf[..n], m, at, []);
    TakenBytes(page[..], m, at, k, n);
  }

  lemma TakenBytes(b: seq<Byte>, m: seq<Byte>, at: nat, k: K.Kbd, n: int)
    requires 0 <= n <= k.count <= |k.buf| && Filled(b, m, at, [] + k.buf[..n][..n])
    ensures at + n <= |m| && b == Write(m, at, K.Pending(k)[..n])
  {
    assert [] + k.buf[..n][..n] == K.Pending(k)[..n];
    FilledIsWrite(b, m, at, K.Pending(k)[..n]);
  }

  lemma ScrollTwice(m: seq<Byte>, ptr: int, a: seq<Byte>, b: seq<Byte>)
    requires Holds(m, ptr) && |a| == VIDEO_MEM_SIZE - ROW_BYTES && |b| == ROW_BYTES
    ensures Write(Write(m, ptr, a), ptr + VIDEO_MEM_SIZE - ROW_BYTES, b) == Write(m, ptr, a + b)
  {
  }

  lemma OneChar(v: Video, t: int, c: Byte)
    requires 0 <= t < |v.terms| && Holds(v.mem, v.terms[t].videoMem)
    ensures var d := Put(v.mem, v.terms[t].videoMem, v.terms[t].cur, c);
            Draw(v, t, [c]) == v.(mem := d.mem, terms := v.terms[t := v.terms[t].(cur := d.cur)])
  {
    var d := Put(v.mem, v.terms[t].videoMem, v.terms[t].cur, c);
    assert [c][1..] == [];
    assert PutAll(d.mem, v.terms[t].videoMem, d.cur, []) == d;
  }

  lemma Switched(v: Video, n: int)
    requires VideoOk(v) && 0 <= n < |v.terms|
    ensures var w := Step(v, Event.SetDisplay(n));
            VideoOk(w) && forall t :: 0 <= t < |v.terms| ==> Logical(w, t) == Logical(v, t)
  {
    var e := Event.SetDisplay(n);
    StepOk(v, e);
    forall t | 0 <= t < |v.terms| ensures Logical(Step(v, e), t) == Logical(v, t) { StepIsolated(v, e, t); }
  }
}
