/** The keyboard line discipline of terminal.c: one 128-byte buffer per terminal, filled by
    interrupts and drained by a blocking read. */
module Keyboard {
  import opened Machine
  import opened Screen
  import opened Waiting

  const KEYBOARD_BUF_SIZE := 128

  datatype Kbd = Kbd(buf: seq<Byte>, count: int)

  /** A full buffer always ends in a newline. */
  ghost predicate KbdOk(k: Kbd) {
    && |k.buf| == KEYBOARD_BUF_SIZE && 0 <= k.count <= KEYBOARD_BUF_SIZE
    && (k.count == KEYBOARD_BUF_SIZE ==> k.buf[KEYBOARD_BUF_SIZE - 1] == NEWLINE)
  }

  function Pending(k: Kbd): seq<Byte>
    requires 0 <= k.count <= |k.buf|
  {
    k.buf[..k.count]
  }

  // ---------------------------------------------------------------- typing

  predicate Erases(k: Kbd, lx: int, c: Byte) { c == BACKSPACE && k.count > 0 && lx > 0 }

  predicate Accepts(k: Kbd, c: Byte) {
    (c != BACKSPACE && k.count < KEYBOARD_BUF_SIZE - 1) || (c == NEWLINE && k.count < KEYBOARD_BUF_SIZE)
  }

  /** handle_char_input, as far as the buffer goes. */
  function Key(k: Kbd, lx: int, c: Byte): Kbd
    requires |k.buf| == KEYBOARD_BUF_SIZE && 0 <= k.count <= KEYBOARD_BUF_SIZE
  {
    if Erases(k, lx, c) then k.(count := k.count - 1)
    else if Accepts(k, c) then Kbd(k.buf[k.count := c], k.count + 1)
    else k
  }

  /** Which keys do what: below 127 waiting characters every key but backspace is kept, the 128th
      place is for a newline, and backspace takes the last character if the line has one. */
  lemma KeyOk(k: Kbd, lx: int, c: Byte)
    requires KbdOk(k)
    ensures KbdOk(Key(k, lx, c))
    ensures (c != 8 && k.count < 127) || (c == 10 && k.count == 127) ==> Pending(Key(k, lx, c)) == Pending(k) + [c]
    ensures c == 8 && k.count > 0 && lx > 0 ==> Pending(Key(k, lx, c)) == Pending(k)[..k.count - 1]
    ensures c == 8 && (k.count == 0 || lx <= 0) ==> Key(k, lx, c) == k
    ensures c != 8 && k.count >= 127 && !(c == 10 && k.count == 127) ==> Key(k, lx, c) == k
  {
  }

  // ---------------------------------------------------------------- waiting

  /** Index of the first newline at or after i, or -1. */
  function NewlineFrom(k: Kbd, i: nat): (r: int)
    requires i <= k.count <= |k.buf|
    ensures r == -1 || (i <= r < k.count && k.buf[r] == NEWLINE)
    ensures forall j :: i <= j < (if r == -1 then k.count else r) ==> k.buf[j] != NEWLINE
    decreases k.count - i
  {
    if i == k.count then -1 else if k.buf[i] == NEWLINE then i else NewlineFrom(k, i + 1)
  }

  /** One round of terminal_wait_kbd_input: newlines matter only while too little has been typed. */
  function Poll(k: Kbd, nbytes: int): Wait
    requires 0 <= k.count <= |k.buf|
  {
    if nbytes <= k.count then Ready(nbytes)
    else var i := NewlineFrom(k, 0); if i >= 0 then Ready(i + 1) else Blocked
  }

  /** A reader of nbytes gets them if they are there, else a line if there is one, else waits. */
  lemma PollMeans(k: Kbd, nbytes: int, n: int)
    requires 0 <= k.count <= |k.buf|
    ensures nbytes <= k.count ==> Poll(k, nbytes) == Ready(nbytes)
    ensures nbytes > k.count && 1 <= n <= k.count && k.buf[n - 1] == 10 && (forall j :: 0 <= j < n - 1 ==> k.buf[j] != 10)
            ==> Poll(k, nbytes) == Ready(n)
    ensures Poll(k, nbytes) == Blocked <==> nbytes > k.count && forall j :: 0 <= j < k.count ==> k.buf[j] != 10
  {
  }

  /** A blocked reader is released by the next newline typed on its terminal, whatever else it
      has been asking for, and gets everything typed so far. */
  lemma NewlineUnblocks(k: Kbd, lx: int, nbytes: int)
    requires KbdOk(k) && nbytes <= KEYBOARD_BUF_SIZE
    requires Poll(k, nbytes) == Blocked
    ensures Poll(Key(k, lx, NEWLINE), nbytes) == Ready(k.count + 1)
    ensures Pending(Key(k, lx, NEWLINE)) == Pending(k) + [NEWLINE]
  {
    KeyOk(k, lx, NEWLINE);
    var k' := Key(k, lx, NEWLINE);
    assert k'.buf[k.count] == NEWLINE;
    if nbytes > k'.count {
      var r := NewlineFrom(k', 0);
      assert r <= k.count;
    }
  }

  /** What terminal_stdin_read promises of n characters: nothing after the first line break. */
  ghost predicate StopsAtLineBreak(k: Kbd, n: int)
    requires n <= |k.buf|
  {
    forall j :: 0 <= j < n - 1 ==> k.buf[j] != NEWLINE
  }

  /** A reader of three characters gets a, newline, b: the code does not look for a newline when
      enough has been typed. */
  lemma ReadCrossesLineBreak(k: Kbd)
    requires KbdOk(k) && k.count == 3 && k.buf[..3] == [97, NEWLINE, 98]
    ensures Poll(k, 3) == Ready(3) && !StopsAtLineBreak(k, 3)
  {
    assert k.buf[..3][1] == k.buf[1];
  }

  /** The promise holds exactly when more is asked for than has been typed, or no newline comes
      before the last character asked for. */
  lemma StopsExactly(k: Kbd, nbytes: int, n: int)
    requires KbdOk(k) && Poll(k, nbytes) == Ready(n)
    ensures n <= k.count
    ensures StopsAtLineBreak(k, n) <==> nbytes > k.count || forall j :: 0 <= j < nbytes - 1 ==> k.buf[j] != NEWLINE
  {
  }

  /** So it holds of every buffer if and only if more is asked for than has been typed, or at most
      one character. */
  lemma StopsForAll(count: int, nbytes: int)
    requires 0 <= count <= KEYBOARD_BUF_SIZE
    ensures (forall k: Kbd, n: int :: KbdOk(k) && k.count == count && Poll(k, nbytes) == Ready(n)
                                      ==> n <= count && StopsAtLineBreak(k, n))
       <==> nbytes > count || nbytes <= 1
  {
    if nbytes > count || nbytes <= 1 {
      forall k: Kbd, n: int | KbdOk(k) && k.count == count && Poll(k, nbytes) == Ready(n)
        ensures n <= count && StopsAtLineBreak(k, n)
      {
        StopsExactly(k, nbytes, n);
      }
    } else {
      var k := Kbd(seq(KEYBOARD_BUF_SIZE, _ => NEWLINE), count);
      assert KbdOk(k) && Poll(k, nbytes) == Ready(nbytes);
      assert k.buf[0] == NEWLINE;
      assert !StopsAtLineBreak(k, nbytes);
    }
  }

  // ---------------------------------------------------------------- consuming

  /** The memmove and the subtraction at the end of terminal_stdin_read; `beyond` is the memory
      that happens to follow the buffer. */
  function Consume(k: Kbd, n: int, beyond: seq<Byte>): (r: Kbd)
    requires |k.buf| == KEYBOARD_BUF_SIZE && 0 <= n <= k.count <= KEYBOARD_BUF_SIZE && |beyond| >= KEYBOARD_BUF_SIZE
    ensures |r.buf| == KEYBOARD_BUF_SIZE
  {
    Kbd((k.buf + beyond)[n..2 * n] + k.buf[n..], k.count - n)
  }

  /** What should be left after a read of n characters. */
  ghost predicate Fifo(k: Kbd, n: int, beyond: seq<Byte>)
    requires |k.buf| == KEYBOARD_BUF_SIZE && 0 <= n <= k.count <= KEYBOARD_BUF_SIZE && |beyond| >= KEYBOARD_BUF_SIZE
  {
    Pending(Consume(k, n, beyond)) == Pending(k)[n..]
  }

  lemma ConsumeAt(k: Kbd, n: int, beyond: seq<Byte>, i: int)
    requires |k.buf| == KEYBOARD_BUF_SIZE && 0 <= n <= k.count <= KEYBOARD_BUF_SIZE && |beyond| >= KEYBOARD_BUF_SIZE
    requires 0 <= i < k.count - n
    ensures Consume(k, n, beyond).buf[i] == if i < n then k.buf[i + n] else k.buf[i]
  {
    if i < n { assert (k.buf + beyond)[n..2 * n][i] == (k.buf + beyond)[n + i]; }
  }

  /** The code moves n characters down where it should move count - n: nothing is lost exactly
      when the characters it leaves behind happen to repeat with period n. */
  lemma FifoExactly(k: Kbd, n: int, beyond: seq<Byte>)
    requires |k.buf| == KEYBOARD_BUF_SIZE && 0 <= n <= k.count <= KEYBOARD_BUF_SIZE && |beyond| >= KEYBOARD_BUF_SIZE
    ensures Fifo(k, n, beyond) <==> forall i :: n <= i < k.count - n ==> k.buf[i] == k.buf[i + n]
  {
    var r := Consume(k, n, beyond);
    assert |Pending(r)| == |Pending(k)[n..]| == k.count - n;
    forall i | 0 <= i < k.count - n
      ensures Pending(r)[i] == if i < n then k.buf[i + n] else k.buf[i]
      ensures Pending(k)[n..][i] == k.buf[i + n]
    {
      ConsumeAt(k, n, beyond, i);
    }
  }

  /** So it keeps the order of every buffer if and only if it reads nothing or at least half. */
  lemma FifoForAll(count: int, n: int)
    requires 0 <= n <= count <= KEYBOARD_BUF_SIZE
    ensures (forall k: Kbd, beyond: seq<Byte> ::
               |k.buf| == KEYBOARD_BUF_SIZE && k.count == count && |beyond| >= KEYBOARD_BUF_SIZE ==> Fifo(k, n, beyond))
       <==> n == 0 || count <= 2 * n
  {
    if n == 0 || count <= 2 * n {
      forall k: Kbd, beyond: seq<Byte> | |k.buf| == KEYBOARD_BUF_SIZE && k.count == count && |beyond| >= KEYBOARD_BUF_SIZE
        ensures Fifo(k, n, beyond)
      {
        FifoExactly(k, n, beyond);
      }
    } else {
      var k := Kbd(seq(KEYBOARD_BUF_SIZE, i => if i == n then 1 else 0), count);
      var beyond := seq(KEYBOARD_BUF_SIZE, _ => 0);
      FifoExactly(k, n, beyond);
      assert k.buf[n] != k.buf[n + n];
      assert !Fifo(k, n, beyond);
    }
  }

  lemma ConsumeOk(k: Kbd, n: int, beyond: seq<Byte>)
    requires KbdOk(k) && 0 <= n <= k.count && |beyond| >= KEYBOARD_BUF_SIZE
    ensures KbdOk(Consume(k, n, beyond))
  {
    if n == 0 { assert Consume(k, n, beyond).buf == k.buf; }
  }

  /** Typing ahead of a reader of lines: of a, newline, b, c, d, e the reader gets the first line,
      and then finds b, c, b, c in the buffer: d and e are lost, b and c come twice. */
  lemma TypeAheadIsMangled(k: Kbd, beyond: seq<Byte>)
    requires |k.buf| == KEYBOARD_BUF_SIZE && |beyond| >= KEYBOARD_BUF_SIZE
    requires k.count == 6 && k.buf[..6] == [97, NEWLINE, 98, 99, 100, 101]
    ensures Poll(k, KEYBOARD_BUF_SIZE) == Ready(2)
    ensures Pending(Consume(k, 2, beyond)) == [98, 99, 98, 99]
  {
    assert forall i :: 0 <= i < 6 ==> k.buf[i] == k.buf[..6][i];
    assert NewlineFrom(k, 0) == 1;
    forall i | 0 <= i < 4 ensures Pending(Consume(k, 2, beyond))[i] == [98, 99, 98, 99][i] {
      ConsumeAt(k, 2, beyond, i);
    }
  }

  // ---------------------------------------------------------------- whole runs

  datatype Event =
    | Typed(c: Byte, lx: int)
    | Taken(nbytes: int, beyond: seq<Byte>)   // a read of nbytes that did not have to wait
    | Emptied                                 // terminal_clear, terminal_clear_input

  /** The buffer, and everything read so far. */
  datatype Line = Line(k: Kbd, read: seq<Byte>)

  predicate Enabled(l: Line, e: Event)
    requires 0 <= l.k.count <= |l.k.buf|
  {
    e.Taken? ==> 0 <= e.nbytes <= KEYBOARD_BUF_SIZE && Poll(l.k, e.nbytes).Ready? && |e.beyond| >= KEYBOARD_BUF_SIZE
  }

  function Next(l: Line, e: Event): Line
    requires |l.k.buf| == KEYBOARD_BUF_SIZE && 0 <= l.k.count <= KEYBOARD_BUF_SIZE && Enabled(l, e)
  {
    match e
    case Typed(c, lx) => l.(k := Key(l.k, lx, c))
    case Taken(nbytes, beyond) =>
      var n := Poll(l.k, nbytes).n;
      Line(Consume(l.k, n, beyond), l.read + l.k.buf[..n])
    case Emptied => l.(k := l.k.(count := 0))
  }

  lemma NextOk(l: Line, e: Event)
    requires KbdOk(l.k) && Enabled(l, e)
    ensures KbdOk(Next(l, e).k)
  {
    match e
    case Typed(c, lx) => KeyOk(l.k, lx, c);
    case Taken(nbytes, beyond) => ConsumeOk(l.k, Poll(l.k, nbytes).n, beyond);
    case Emptied =>
  }

  /** All events of es are possible when their turn comes. */
  ghost predicate Possible(l: Line, es: seq<Event>)
    requires KbdOk(l.k)
    decreases |es|
  {
    es == [] || (Enabled(l, es[0]) && (NextOk(l, es[0]); Possible(Next(l, es[0]), es[1..])))
  }

  ghost function After(l: Line, es: seq<Event>): Line
    requires KbdOk(l.k) && Possible(l, es)
    decreases |es|
  {
    if es == [] then l else NextOk(l, es[0]); After(Next(l, es[0]), es[1..])
  }

  /** Over every run, whatever is typed, erased, read and cleared: 0 <= count <= 128, and a full
      buffer ends in newline. */
  lemma {:induction false} RunOk(l: Line, es: seq<Event>)
    requires KbdOk(l.k) && Possible(l, es)
    ensures KbdOk(After(l, es).k)
    decreases |es|
  {
    if es != [] {
      NextOk(l, es[0]);
      RunOk(Next(l, es[0]), es[1..]);
    }
  }

  // ---------------------------------------------------------------- the buffer as a queue

  /** What the characters waiting and read would be if the buffer were a plain queue of at most 128
      characters. */
  datatype Queue = Queue(waiting: seq<Byte>, read: seq<Byte>)

  /** The queue, as a buffer without anything behind it. */
  function AsKbd(q: Queue): Kbd { Kbd(q.waiting, |q.waiting|) }

  /** Room for 127 characters and a newline. */
  predicate HasRoom(q: Queue, c: Byte) { |q.waiting| < 127 || (|q.waiting| == 127 && c == 10) }

  predicate QueueEnabled(q: Queue, e: Event) { e.Taken? ==> 0 <= e.nbytes && Poll(AsKbd(q), e.nbytes).Ready? }

  function NextQueue(q: Queue, e: Event): Queue
    requires QueueEnabled(q, e)
  {
    match e
    case Typed(c, lx) =>
      if c == 8 then (if |q.waiting| > 0 && lx > 0 then q.(waiting := q.waiting[..|q.waiting| - 1]) else q)
      else if HasRoom(q, c) then q.(waiting := q.waiting + [c])
      else q
    case Taken(nbytes, _) =>
      var n := Poll(AsKbd(q), nbytes).n;
      Queue(q.waiting[n..], q.read + q.waiting[..n])
    case Emptied => q.(waiting := [])
  }

  ghost predicate Agrees(q: Queue, l: Line) {
    KbdOk(l.k) && q.waiting == Pending(l.k) && q.read == l.read
  }

  lemma {:induction false} SameNewline(q: Queue, k: Kbd, i: nat)
    requires i <= k.count <= |k.buf| && q.waiting == k.buf[..k.count]
    ensures NewlineFrom(AsKbd(q), i) == NewlineFrom(k, i)
    decreases k.count - i
  {
    if i < k.count { SameNewline(q, k, i + 1); }
  }

  /** Queue and buffer release a reader at the same time, with the same number of characters. */
  lemma SamePoll(q: Queue, l: Line, nbytes: int)
    requires Agrees(q, l)
    ensures Poll(AsKbd(q), nbytes) == Poll(l.k, nbytes)
  {
    SameNewline(q, l.k, 0);
  }

  /** The sufficient condition on a read, as a caller could check it beforehand. */
  predicate KeepsOrder(l: Line, e: Event)
    requires 0 <= l.k.count <= |l.k.buf| && Enabled(l, e)
  {
    e.Taken? ==> var n := Poll(l.k, e.nbytes).n; n == 0 || l.k.count <= 2 * n
  }

  lemma NextAgrees(q: Queue, l: Line, e: Event)
    requires Agrees(q, l) && Enabled(l, e) && KeepsOrder(l, e)
    ensures QueueEnabled(q, e) && Agrees(NextQueue(q, e), Next(l, e))
  {
    NextOk(l, e);
    match e
    case Typed(c, lx) => KeyOk(l.k, lx, c);
    case Taken(nbytes, beyond) =>
      SamePoll(q, l, nbytes);
      var n := Poll(l.k, nbytes).n;
      FifoExactly(l.k, n, beyond);
      assert l.k.buf[..n] == Pending(l.k)[..n];
    case Emptied =>
  }

  /** All reads of es keep the order. */
  ghost predicate Orderly(l: Line, es: seq<Event>)
    requires KbdOk(l.k) && Possible(l, es)
    decreases |es|
  {
    es == [] || (KeepsOrder(l, es[0]) && (NextOk(l, es[0]); Orderly(Next(l, es[0]), es[1..])))
  }

  ghost predicate QueuePossible(q: Queue, es: seq<Event>)
    decreases |es|
  {
    es == [] || (QueueEnabled(q, es[0]) && QueuePossible(NextQueue(q, es[0]), es[1..]))
  }

  ghost function QueueAfter(q: Queue, es: seq<Event>): Queue
    requires QueuePossible(q, es)
    decreases |es|
  {
    if es == [] then q else QueueAfter(NextQueue(q, es[0]), es[1..])
  }

  /** Over every orderly run, with anything typed, erased, read or cleared, the buffer is a queue: what
      has been read and what is waiting are what a queue fed the same events has. */
  lemma {:induction false} RunAgrees(q: Queue, l: Line, es: seq<Event>)
    requires Agrees(q, l) && Possible(l, es) && Orderly(l, es)
    ensures QueuePossible(q, es) && Agrees(QueueAfter(q, es), After(l, es))
    decreases |es|
  {
    if es != [] {
      NextOk(l, es[0]);
      NextAgrees(q, l, es[0]);
      RunAgrees(NextQueue(q, es[0]), Next(l, es[0]), es[1..]);
    }
  }

  // ---------------------------------------------------------------- nothing lost

  predicate NoErasing(es: seq<Event>) {
    forall i :: 0 <= i < |es| ==> !es[i].Emptied? && (es[i].Typed? ==> es[i].c != BACKSPACE)
  }

  /** The character an event adds to the queue, if any. */
  function Added(q: Queue, e: Event): seq<Byte> {
    if e.Typed? && e.c != 8 && HasRoom(q, e.c) then [e.c] else []
  }

  /** The characters a queue accepts, in order. */
  ghost function Accepted(q: Queue, es: seq<Event>): seq<Byte>
    requires QueuePossible(q, es)
    decreases |es|
  {
    if es == [] then [] else Added(q, es[0]) + Accepted(NextQueue(q, es[0]), es[1..])
  }

  lemma StepConserves(q: Queue, e: Event)
    requires QueueEnabled(q, e) && !e.Emptied? && (e.Typed? ==> e.c != BACKSPACE)
    ensures var q' := NextQueue(q, e); q'.read + q'.waiting == q.read + q.waiting + Added(q, e)
  {
    if e.Taken? {
      var n := Poll(AsKbd(q), e.nbytes).n;
      assert q.read + q.waiting[..n] + q.waiting[n..] == q.read + q.waiting;
    }
  }

  /** Characters only move from waiting to read. */
  lemma {:induction false} QueueConserves(q: Queue, es: seq<Event>)
    requires QueuePossible(q, es) && NoErasing(es)
    ensures var r := QueueAfter(q, es); r.read + r.waiting == q.read + q.waiting + Accepted(q, es)
    decreases |es|
  {
    if es != [] {
      StepConserves(q, es[0]);
      QueueConserves(NextQueue(q, es[0]), es[1..]);
      Regroup(q.read + q.waiting, Added(q, es[0]), Accepted(NextQueue(q, es[0]), es[1..]));
    }
  }

  lemma Regroup(a: seq<Byte>, b: seq<Byte>, c: seq<Byte>)
    ensures (a + b) + c == a + (b + c)
  {
  }

  /** With nothing erased or cleared, the characters read and then those still waiting are exactly the
      characters accepted, each once and in order. */
  lemma NothingLost(q: Queue, l: Line, es: seq<Event>)
    requires Agrees(q, l) && Possible(l, es) && Orderly(l, es) && NoErasing(es)
    ensures var r := After(l, es);
            && QueuePossible(q, es) && KbdOk(r.k)
            && r.read + Pending(r.k) == l.read + Pending(l.k) + Accepted(q, es)
  {
    RunAgrees(q, l, es);
    QueueConserves(q, es);
  }

  /** The characters of a run of typing. */
  function Chars(es: seq<Event>): seq<Byte> {
    if es == [] then [] else (if es[0].Typed? then [es[0].c] else []) + Chars(es[1..])
  }

  /** Whatever is typed ahead is kept: as long as there are no more than 127 characters waiting, all that
      is typed is waiting, in order, and nothing has been read. */
  lemma {:induction false} TypedIsWaiting(l: Line, es: seq<Event>)
    requires KbdOk(l.k) && l.k.count + |es| <= 127
    requires forall i :: 0 <= i < |es| ==> es[i].Typed? && es[i].c != 8
    ensures Possible(l, es)
    ensures var r := After(l, es); KbdOk(r.k) && Pending(r.k) == Pending(l.k) + Chars(es) && r.read == l.read
    decreases |es|
  {
    if es != [] {
      NextOk(l, es[0]);
      KeyOk(l.k, es[0].lx, es[0].c);
      TypedIsWaiting(Next(l, es[0]), es[1..]);
      Regroup(Pending(l.k), [es[0].c], Chars(es[1..]));
    }
  }
}
