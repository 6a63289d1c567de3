/** The cursor and scrolling logic of terminal.c on a piece of video memory, and the
    unbounded page it is a 25-row window of. */
module Screen {
  import opened Machine
  import opened UserMemory
  import opened Arithmetic
  import opened Primitives

  const NUM_COLS := 80
  const NUM_ROWS := 25
  const ROW_BYTES := 160
  const VIDEO_MEM_SIZE := 4000
  const ATTRIB: Byte := 7
  const SPACE: Byte := 0x20
  const NEWLINE: Byte := 10
  const RETURN: Byte := 13
  const BACKSPACE: Byte := 8

  datatype Cursor = Cursor(lx: int, x: int, y: int)   // logical_x, screen_x, screen_y

  datatype Drawn = Drawn(mem: seq<Byte>, cur: Cursor)

  /** n blank cells, as vga_clear_region writes them. */
  function Blanks(n: nat): (r: seq<Byte>)
    ensures |r| == 2 * n
  {
    seq(2 * n, i => if i % 2 == 0 then SPACE else ATTRIB)
  }

  /** Byte offset of the cell under the cursor. */
  function CellAt(cur: Cursor): int { 2 * (cur.y * NUM_COLS + cur.x) }

  /** terminal_write_char.  An address outside the modelled memory changes nothing in it. */
  function PutCell(mem: seq<Byte>, ptr: int, cur: Cursor, c: Byte): (r: seq<Byte>)
    ensures |r| == |mem|
  {
    var i := ptr + CellAt(cur);
    if 0 <= i && i + 2 <= |mem| then Write(mem, i, [c, ATTRIB]) else mem
  }

  predicate Holds(mem: seq<Byte>, ptr: int) { 0 <= ptr && ptr + VIDEO_MEM_SIZE <= |mem| }

  /** terminal_scroll_down. */
  function Scroll(mem: seq<Byte>, ptr: int): (r: seq<Byte>)
    requires Holds(mem, ptr)
    ensures |r| == |mem|
  {
    Write(mem, ptr, Read(mem, ptr + ROW_BYTES, VIDEO_MEM_SIZE - ROW_BYTES) + Blanks(NUM_COLS))
  }

  function ScrollIfBelow(d: Drawn, ptr: int): (r: Drawn)
    requires Holds(d.mem, ptr)
    ensures |r.mem| == |d.mem|
  {
    if d.cur.y >= NUM_ROWS then Drawn(Scroll(d.mem, ptr), d.cur.(y := d.cur.y - 1)) else d
  }

  function Retreat(cur: Cursor): Cursor {
    if cur.x - 1 < 0 then Cursor(cur.lx - 1, cur.x - 1 + NUM_COLS, cur.y - 1) else Cursor(cur.lx - 1, cur.x - 1, cur.y)
  }

  function Advance(cur: Cursor): Cursor {
    if cur.x + 1 >= NUM_COLS then Cursor(cur.lx + 1, cur.x + 1 - NUM_COLS, cur.y + 1) else Cursor(cur.lx + 1, cur.x + 1, cur.y)
  }

  /** terminal_putc_impl. */
  function Put(mem: seq<Byte>, ptr: int, cur: Cursor, c: Byte): (r: Drawn)
    requires Holds(mem, ptr)
    ensures |r.mem| == |mem|
  {
    if c == NEWLINE then ScrollIfBelow(Drawn(mem, Cursor(0, 0, cur.y + 1)), ptr)
    else if c == RETURN then Drawn(mem, Cursor(0, 0, cur.y))
    else if c == BACKSPACE then
      if cur.lx > 0 then
        Drawn(PutCell(mem, ptr, Retreat(cur), SPACE), Retreat(cur))
      else Drawn(mem, cur)
    else
      ScrollIfBelow(Drawn(PutCell(mem, ptr, cur, c), Advance(cur)), ptr)
  }

  // ---------------------------------------------------------------- the cursor

  predicate OnScreen(cur: Cursor) {
    0 <= cur.lx && cur.x == cur.lx % NUM_COLS && 0 <= cur.y < NUM_ROWS
  }

  /** The one thing terminal_putc_impl does not check: a backspace at the top left corner. */
  predicate Safe(cur: Cursor, c: Byte) {
    !(c == BACKSPACE && cur.lx > 0 && cur.x == 0 && cur.y == 0)
  }

  /** The cursor stays on the screen, and in step with logical_x, exactly when the character is safe. */
  lemma CursorKept(mem: seq<Byte>, ptr: int, cur: Cursor, c: Byte)
    requires Holds(mem, ptr) && OnScreen(cur)
    ensures OnScreen(Put(mem, ptr, cur, c).cur) <==> Safe(cur, c)
  {
    ModSucc(cur.lx, NUM_COLS);
    if cur.lx > 0 { ModSucc(cur.lx - 1, NUM_COLS); }
  }

  /** Every row of the current logical line is still on the screen. */
  predicate Anchored(cur: Cursor) { OnScreen(cur) && cur.lx / NUM_COLS <= cur.y }

  /** As long as logical_x stays below 2000, no character is unsafe. */
  lemma AnchoredKept(mem: seq<Byte>, ptr: int, cur: Cursor, c: Byte)
    requires Holds(mem, ptr) && Anchored(cur)
    ensures Safe(cur, c)
    ensures Put(mem, ptr, cur, c).cur.lx < NUM_COLS * NUM_ROWS ==> Anchored(Put(mem, ptr, cur, c).cur)
  {
    ModSucc(cur.lx, NUM_COLS);
    if cur.lx > 0 { ModSucc(cur.lx - 1, NUM_COLS); }
  }

  // ---------------------------------------------------------------- one character on a screen

  /** A printed character is under the old cursor, in grey on black, and everything else as before; the
      cursor goes one place on, and to the next row after column 79, scrolling as a newline does. */
  lemma PrintMeans(m: seq<Byte>, cur: Cursor, c: Byte)
    requires |m| == 4000 && OnScreen(cur) && c != 10 && c != 13 && c != 8
    ensures var r := Put(m, 0, cur, c); var i := 160 * cur.y + 2 * cur.x;
            && 0 <= i <= 3998 && r.cur.lx == cur.lx + 1
            && (cur.x < 79 ==> r.mem == m[i := c][i + 1 := 7] && r.cur.x == cur.x + 1 && r.cur.y == cur.y)
            && (cur.x == 79 ==> var n := Put(m[i := c][i + 1 := 7], 0, cur, 10);
                  r.mem == n.mem && r.cur.x == n.cur.x && r.cur.y == n.cur.y)
  {
    var i := 160 * cur.y + 2 * cur.x;
    assert Write(m, i, [c, 7]) == m[i := c][i + 1 := 7];
  }

  /** A newline goes to column 0 of the next row; on the last row every row moves up by one and the last
      is blank. */
  lemma NewlineMeans(m: seq<Byte>, cur: Cursor)
    requires |m| == 4000 && OnScreen(cur)
    ensures var r := Put(m, 0, cur, 10);
            && r.cur == Cursor(0, 0, if cur.y == 24 then 24 else cur.y + 1)
            && (cur.y < 24 ==> r.mem == m)
            && (cur.y == 24 ==> forall i :: 0 <= i < 4000 ==>
                  r.mem[i] == if i < 3840 then m[i + 160] else if i % 2 == 0 then 32 else 7)
  {
    if cur.y == 24 { ScrollWhole(m); }
  }

  /** A carriage return goes to column 0.  A backspace blanks the character before the cursor and goes
      there, over the row boundary if need be, and does nothing at the start of a logical line. */
  lemma ReturnAndBackspaceMean(m: seq<Byte>, cur: Cursor)
    requires |m| == 4000 && OnScreen(cur)
    ensures Put(m, 0, cur, 13) == Drawn(m, Cursor(0, 0, cur.y))
    ensures cur.lx == 0 ==> Put(m, 0, cur, 8) == Drawn(m, cur)
    ensures cur.lx > 0 && cur.x > 0 ==> var i := 160 * cur.y + 2 * cur.x - 2;
              && 0 <= i <= 3998
              && Put(m, 0, cur, 8) == Drawn(m[i := 32][i + 1 := 7], Cursor(cur.lx - 1, cur.x - 1, cur.y))
    ensures cur.lx > 0 && cur.x == 0 && cur.y > 0 ==> var i := 160 * cur.y - 2;
              && 0 <= i <= 3998
              && Put(m, 0, cur, 8) == Drawn(m[i := 32][i + 1 := 7], Cursor(cur.lx - 1, 79, cur.y - 1))
  {
    var i := 160 * cur.y + 2 * cur.x - 2;
    if i >= 0 { assert Write(m, i, [32, 7]) == m[i := 32][i + 1 := 7]; }
  }

  // ---------------------------------------------------------------- locality

  /** The 4000 bytes at ptr. */
  function View(mem: seq<Byte>, ptr: int): (r: seq<Byte>)
    requires Holds(mem, ptr)
    ensures |r| == VIDEO_MEM_SIZE
  {
    Read(mem, ptr, VIDEO_MEM_SIZE)
  }

  ghost predicate SameOutside(m: seq<Byte>, m': seq<Byte>, ptr: int) {
    && |m'| == |m|
    && forall i :: 0 <= i < |m| && !(ptr <= i < ptr + VIDEO_MEM_SIZE) ==> m'[i] == m[i]
  }

  lemma WriteLocal(mem: seq<Byte>, ptr: int, k: int, bs: seq<Byte>)
    requires Holds(mem, ptr) && 0 <= k && k + |bs| <= VIDEO_MEM_SIZE
    ensures View(Write(mem, ptr + k, bs), ptr) == Write(View(mem, ptr), k, bs)
    ensures SameOutside(mem, Write(mem, ptr + k, bs), ptr)
  {
  }

  lemma ScrollLocal(mem: seq<Byte>, ptr: int)
    requires Holds(mem, ptr)
    ensures View(Scroll(mem, ptr), ptr) == Scroll(View(mem, ptr), 0)
    ensures SameOutside(mem, Scroll(mem, ptr), ptr)
  {
    var s := View(mem, ptr);
    assert Read(mem, ptr + ROW_BYTES, VIDEO_MEM_SIZE - ROW_BYTES) == Read(s, ROW_BYTES, VIDEO_MEM_SIZE - ROW_BYTES);
    WriteLocal(mem, ptr, 0, Read(s, ROW_BYTES, VIDEO_MEM_SIZE - ROW_BYTES) + Blanks(NUM_COLS));
  }

  lemma PutCellLocal(mem: seq<Byte>, ptr: int, cur: Cursor, c: Byte)
    requires Holds(mem, ptr) && 0 <= cur.x < NUM_COLS && 0 <= cur.y < NUM_ROWS
    ensures View(PutCell(mem, ptr, cur, c), ptr) == PutCell(View(mem, ptr), 0, cur, c)
    ensures SameOutside(mem, PutCell(mem, ptr, cur, c), ptr)
  {
    WriteLocal(mem, ptr, CellAt(cur), [c, ATTRIB]);
  }

  /** A safe character draws on its own 4000 bytes, as if there were no others. */
  lemma PutLocal(mem: seq<Byte>, ptr: int, cur: Cursor, c: Byte)
    requires Holds(mem, ptr) && OnScreen(cur) && Safe(cur, c)
    ensures var r := Put(mem, ptr, cur, c); var e := Put(View(mem, ptr), 0, cur, c);
            e == Drawn(View(r.mem, ptr), r.cur) && SameOutside(mem, r.mem, ptr)
  {
    CursorKept(mem, ptr, cur, c);
    if c == NEWLINE {
      ScrollLocal(mem, ptr);
    } else if c == BACKSPACE {
      if cur.lx > 0 { PutCellLocal(mem, ptr, Put(mem, ptr, cur, c).cur, SPACE); }
    } else if c != RETURN {
      PutCellLocal(mem, ptr, cur, c);
      ScrollLocal(PutCell(mem, ptr, cur, c), ptr);
    }
  }

  /** The unsafe backspace blanks the two bytes before the screen and nothing else. */
  lemma UnsafeWrite(mem: seq<Byte>, ptr: int, cur: Cursor, c: Byte)
    requires Holds(mem, ptr) && ptr >= 2 && OnScreen(cur) && !Safe(cur, c)
    ensures Put(mem, ptr, cur, c).mem == Write(mem, ptr - 2, [SPACE, ATTRIB])
  {
  }

  /** A character keeps all bytes outside its own screen exactly when it is safe, or those two bytes
      happen to be blank already. */
  lemma LocalExactly(mem: seq<Byte>, ptr: int, cur: Cursor, c: Byte)
    requires Holds(mem, ptr) && ptr >= 2 && OnScreen(cur)
    ensures SameOutside(mem, Put(mem, ptr, cur, c).mem, ptr)
       <==> Safe(cur, c) || (mem[ptr - 2] == SPACE && mem[ptr - 1] == ATTRIB)
  {
    if Safe(cur, c) {
      PutLocal(mem, ptr, cur, c);
    } else {
      UnsafeWrite(mem, ptr, cur, c);
      var w := Write(mem, ptr - 2, [SPACE, ATTRIB]);
      assert w[ptr - 2] == [SPACE, ATTRIB][0] && w[ptr - 1] == [SPACE, ATTRIB][1];
    }
  }

  /** So it does in every memory if and only if it is safe. */
  lemma LocalForAll(ptr: int, cur: Cursor, c: Byte)
    requires ptr >= 2 && OnScreen(cur)
    ensures (forall mem: seq<Byte> :: Holds(mem, ptr) ==> SameOutside(mem, Put(mem, ptr, cur, c).mem, ptr)) <==> Safe(cur, c)
  {
    forall mem: seq<Byte> | Holds(mem, ptr)
      ensures SameOutside(mem, Put(mem, ptr, cur, c).mem, ptr) <==> Safe(cur, c) || (mem[ptr - 2] == SPACE && mem[ptr - 1] == ATTRIB)
    {
      LocalExactly(mem, ptr, cur, c);
    }
    var mem := seq(ptr + VIDEO_MEM_SIZE, _ => 0 as Byte);
    assert Holds(mem, ptr) && mem[ptr - 2] == 0;
  }

  // ---------------------------------------------------------------- the page behind the window

  /** A page that grows at the bottom and never loses a row. */
  datatype Paper = Paper(cells: seq<Byte>, rows: int, lx: int, x: int, row: int)

  predicate Ruled(p: Paper) { |p.cells| == ROW_BYTES * p.rows && p.rows >= NUM_ROWS && 0 <= p.x < NUM_COLS }

  /** All of the current logical line is on the page. */
  ghost predicate PaperOk(p: Paper) { Ruled(p) && Placed(p.lx, p.x, p.row) && p.row < p.rows }

  predicate Placed(lx: int, x: int, row: int) { 0 <= lx && x == lx % NUM_COLS && lx / NUM_COLS <= row }

  function Ink(p: Paper, c: Byte): (r: Paper)
    requires Ruled(p) && 0 <= p.row < p.rows
    ensures |r.cells| == |p.cells|
  {
    p.(cells := Write(p.cells, 2 * (p.row * NUM_COLS + p.x), [c, ATTRIB]))
  }

  function Feed(p: Paper): (r: Paper)
    requires Ruled(p)
    ensures Ruled(r)
  {
    if p.row >= p.rows then p.(cells := p.cells + Blanks(NUM_COLS), rows := p.rows + 1) else p
  }

  function Back(p: Paper): Paper {
    if p.x == 0 then p.(lx := p.lx - 1, x := NUM_COLS - 1, row := p.row - 1) else p.(lx := p.lx - 1, x := p.x - 1)
  }

  function Forward(p: Paper): Paper {
    if p.x == NUM_COLS - 1 then p.(lx := p.lx + 1, x := 0, row := p.row + 1) else p.(lx := p.lx + 1, x := p.x + 1)
  }

  lemma BackPlaced(p: Paper)
    requires Placed(p.lx, p.x, p.row) && p.lx > 0
    ensures Placed(Back(p).lx, Back(p).x, Back(p).row) && Back(p).row <= p.row
  {
    ModSucc(p.lx - 1, NUM_COLS);
  }

  lemma ForwardPlaced(p: Paper)
    requires Placed(p.lx, p.x, p.row)
    ensures Placed(Forward(p).lx, Forward(p).x, Forward(p).row) && Forward(p).row <= p.row + 1
  {
    ModSucc(p.lx, NUM_COLS);
  }

  /** Typing on the page: no scrolling, no window. */
  function Type(p: Paper, c: Byte): (r: Paper)
    requires PaperOk(p)
    ensures Ruled(r)
  {
    if c == NEWLINE then Feed(p.(lx := 0, x := 0, row := p.row + 1))
    else if c == RETURN then p.(lx := 0, x := 0)
    else if c == BACKSPACE then
      if p.lx == 0 then p else BackPlaced(p); Ink(Back(p), SPACE)
    else Feed(Forward(Ink(p, c)))
  }

  /** The last 25 rows, and the cursor as seen through them. */
  function Window(p: Paper): Drawn
    requires Ruled(p)
  {
    Drawn(p.cells[|p.cells| - VIDEO_MEM_SIZE..], Cursor(p.lx, p.x, p.row - (p.rows - NUM_ROWS)))
  }

  lemma TypeOk(p: Paper, c: Byte)
    requires PaperOk(p)
    ensures PaperOk(Type(p, c))
  {
    if p.lx > 0 { BackPlaced(p); }
    if c != NEWLINE && c != RETURN && c != BACKSPACE { ForwardPlaced(Ink(p, c)); }
  }

  lemma InkWindow(p: Paper, c: Byte)
    requires Ruled(p) && p.rows - NUM_ROWS <= p.row < p.rows
    ensures var w := Window(p); Window(Ink(p, c)) == Drawn(PutCell(w.mem, 0, w.cur, c), w.cur)
  {
    var w := Window(p);
    assert w.cur.x == p.x && 0 <= w.cur.y < NUM_ROWS;
    WriteTail(p.cells, |p.cells| - VIDEO_MEM_SIZE, w.mem, 2 * (p.row * NUM_COLS + p.x), CellAt(w.cur), [c, ATTRIB]);
  }

  lemma WriteTail(cells: seq<Byte>, ptr: int, tail: seq<Byte>, pos: int, k: int, bs: seq<Byte>)
    requires 0 <= ptr && |cells| == ptr + VIDEO_MEM_SIZE && tail == cells[ptr..]
    requires pos == ptr + k && 0 <= k && k + |bs| <= VIDEO_MEM_SIZE
    ensures Write(cells, pos, bs)[ptr..] == Write(tail, k, bs)
  {
  }

  lemma FeedWindow(p: Paper)
    requires Ruled(p) && p.rows - NUM_ROWS <= p.row <= p.rows
    ensures Window(Feed(p)) == ScrollIfBelow(Window(p), 0)
    ensures Feed(p).row >= Feed(p).rows - NUM_ROWS
  {
    if p.row == p.rows {
      var w := Window(p).mem;
      Appended(p.cells, Blanks(NUM_COLS));
      ScrollWhole(w);
      assert Window(Feed(p)).mem == Scroll(w, 0);
    }
  }

  lemma Appended(cells: seq<Byte>, blank: seq<Byte>)
    requires |cells| >= VIDEO_MEM_SIZE && |blank| == ROW_BYTES
    ensures (cells + blank)[|cells| + ROW_BYTES - VIDEO_MEM_SIZE..] == cells[|cells| - VIDEO_MEM_SIZE..][ROW_BYTES..] + blank
  {
  }

  lemma ScrollWhole(w: seq<Byte>)
    requires |w| == VIDEO_MEM_SIZE
    ensures Scroll(w, 0) == w[ROW_BYTES..] + Blanks(NUM_COLS)
  {
    var b := Blanks(NUM_COLS);
    assert Read(w, ROW_BYTES, VIDEO_MEM_SIZE - ROW_BYTES) == w[ROW_BYTES..];
    assert w[..0] + (w[ROW_BYTES..] + b) + w[VIDEO_MEM_SIZE..] == w[ROW_BYTES..] + b;
  }

  lemma BackspaceWindow(p: Paper)
    requires Ruled(p) && p.rows - NUM_ROWS <= p.row < p.rows && p.lx > 0
    requires Safe(Window(p).cur, BACKSPACE)
    ensures var w := Window(p);
            && p.rows - NUM_ROWS <= Back(p).row
            && Window(Ink(Back(p), SPACE)) == Put(w.mem, 0, w.cur, BACKSPACE)
  {
    assert Window(Back(p)) == Drawn(Window(p).mem, Retreat(Window(p).cur));
    InkWindow(Back(p), SPACE);
  }

  lemma EscapeWindow(p: Paper)
    requires PaperOk(p) && p.row >= p.rows - NUM_ROWS && !Safe(Window(p).cur, BACKSPACE)
    ensures Window(Type(p, BACKSPACE)).cur.y == -1
  {
  }

  lemma PrintWindow(p: Paper, c: Byte)
    requires Ruled(p) && p.rows - NUM_ROWS <= p.row < p.rows
    requires c != NEWLINE && c != RETURN && c != BACKSPACE
    ensures var w := Window(p); var q := Feed(Forward(Ink(p, c)));
            Window(q) == Put(w.mem, 0, w.cur, c) && q.row >= q.rows - NUM_ROWS
  {
    InkWindow(p, c);
    var q := Ink(p, c);
    assert Window(Forward(q)) == Drawn(Window(q).mem, Advance(Window(q).cur));
    FeedWindow(Forward(q));
  }

  lemma NewlineWindow(p: Paper)
    requires Ruled(p) && p.rows - NUM_ROWS <= p.row < p.rows
    ensures var w := Window(p); var q := Feed(p.(lx := 0, x := 0, row := p.row + 1));
            Window(q) == Put(w.mem, 0, w.cur, NEWLINE) && q.row >= q.rows - NUM_ROWS
  {
    var p1 := p.(lx := 0, x := 0, row := p.row + 1);
    assert Window(p1) == Drawn(Window(p).mem, Cursor(0, 0, Window(p).cur.y + 1));
    FeedWindow(p1);
  }

  lemma SafeWindow(p: Paper, c: Byte)
    requires PaperOk(p) && p.row >= p.rows - NUM_ROWS && Safe(Window(p).cur, c)
    ensures var w := Window(p); var q := Type(p, c);
            q.row >= q.rows - NUM_ROWS && Window(q) == Put(w.mem, 0, w.cur, c)
  {
    if c == NEWLINE {
      NewlineWindow(p);
    } else if c == RETURN {
      assert Window(p.(lx := 0, x := 0)) == Drawn(Window(p).mem, Cursor(0, 0, Window(p).cur.y));
    } else if c == BACKSPACE {
      if p.lx > 0 { BackspaceWindow(p); }
    } else {
      PrintWindow(p, c);
    }
  }

  /** Whatever is typed, the screen shows the last 25 rows of the page, unless the character is
      the unsafe one, and then the cursor has left the window upwards. */
  lemma WindowKept(p: Paper, c: Byte)
    requires PaperOk(p) && p.row >= p.rows - NUM_ROWS
    ensures var w := Window(p); var q := Type(p, c);
            && OnScreen(w.cur)
            && (Safe(w.cur, c) ==> q.row >= q.rows - NUM_ROWS && Window(q) == Put(w.mem, 0, w.cur, c))
            && (!Safe(w.cur, c) ==> Window(q).cur.y == -1)
  {
    if Safe(Window(p).cur, c) { SafeWindow(p, c); } else { EscapeWindow(p); }
  }

  // ---------------------------------------------------------------- whole strings

  function PutAll(mem: seq<Byte>, ptr: int, cur: Cursor, cs: seq<Byte>): (r: Drawn)
    requires Holds(mem, ptr)
    ensures |r.mem| == |mem|
    decreases |cs|
  {
    if cs == [] then Drawn(mem, cur)
    else var d := Put(mem, ptr, cur, cs[0]); PutAll(d.mem, ptr, d.cur, cs[1..])
  }

  ghost predicate SafeAll(mem: seq<Byte>, ptr: int, cur: Cursor, cs: seq<Byte>)
    requires Holds(mem, ptr)
    decreases |cs|
  {
    cs == [] || (Safe(cur, cs[0]) && var d := Put(mem, ptr, cur, cs[0]); SafeAll(d.mem, ptr, d.cur, cs[1..]))
  }

  ghost function TypeAll(p: Paper, cs: seq<Byte>): (r: Paper)
    requires PaperOk(p)
    ensures PaperOk(r)
    decreases |cs|
  {
    if cs == [] then p else TypeOk(p, cs[0]); TypeAll(Type(p, cs[0]), cs[1..])
  }

  lemma {:induction false} WindowRun(p: Paper, cs: seq<Byte>)
    requires PaperOk(p) && p.row >= p.rows - NUM_ROWS
    requires SafeAll(Window(p).mem, 0, Window(p).cur, cs)
    ensures Window(TypeAll(p, cs)) == PutAll(Window(p).mem, 0, Window(p).cur, cs)
    decreases |cs|
  {
    if cs != [] {
      WindowKept(p, cs[0]);
      TypeOk(p, cs[0]);
      WindowRun(Type(p, cs[0]), cs[1..]);
    }
  }

  lemma {:induction false} AllLocal(mem: seq<Byte>, ptr: int, cur: Cursor, cs: seq<Byte>)
    requires Holds(mem, ptr) && OnScreen(cur)
    requires SafeAll(View(mem, ptr), 0, cur, cs)
    ensures var r := PutAll(mem, ptr, cur, cs); var e := PutAll(View(mem, ptr), 0, cur, cs);
            e == Drawn(View(r.mem, ptr), r.cur) && SameOutside(mem, r.mem, ptr) && OnScreen(r.cur)
    decreases |cs|
  {
    if cs != [] {
      PutLocal(mem, ptr, cur, cs[0]);
      CursorKept(mem, ptr, cur, cs[0]);
      var d := Put(mem, ptr, cur, cs[0]);
      AllLocal(d.mem, ptr, d.cur, cs[1..]);
    }
  }

  // ---------------------------------------------------------------- how the unsafe character is reached

  /** The cursor after k printed characters on a cleared screen. */
  function Printed(k: nat): Cursor {
    Cursor(k, k % NUM_COLS, if k / NUM_COLS < NUM_ROWS then k / NUM_COLS else NUM_ROWS - 1)
  }

  /** The cursor with k characters left after erasing from a line of 2000. */
  function Erased(k: nat): Cursor { Cursor(k, k % NUM_COLS, k / NUM_COLS - 1) }

  /** Where terminal_putc_impl leaves the cursor, whatever is on the screen. */
  function NextCursor(cur: Cursor, c: Byte): Cursor {
    if c == NEWLINE then Lifted(Cursor(0, 0, cur.y + 1))
    else if c == RETURN then Cursor(0, 0, cur.y)
    else if c == BACKSPACE then if cur.lx > 0 then Retreat(cur) else cur
    else Lifted(Advance(cur))
  }

  function Lifted(cur: Cursor): Cursor { if cur.y >= NUM_ROWS then cur.(y := cur.y - 1) else cur }

  function CursorAfter(cur: Cursor, c: Byte, n: nat): Cursor
    decreases n
  {
    if n == 0 then cur else CursorAfter(NextCursor(cur, c), c, n - 1)
  }

  lemma PutCursor(mem: seq<Byte>, ptr: int, cur: Cursor, c: Byte)
    requires Holds(mem, ptr)
    ensures Put(mem, ptr, cur, c).cur == NextCursor(cur, c)
  {
  }

  lemma {:induction false} PutMany(mem: seq<Byte>, ptr: int, cur: Cursor, c: Byte, n: nat)
    requires Holds(mem, ptr)
    ensures PutAll(mem, ptr, cur, Repeated(c, n)).cur == CursorAfter(cur, c, n)
    decreases n
  {
    if n > 0 {
      PutCursor(mem, ptr, cur, c);
      var d := Put(mem, ptr, cur, c);
      PutMany(d.mem, ptr, d.cur, c, n - 1);
      assert Repeated(c, n)[1..] == Repeated(c, n - 1);
    }
  }

  lemma {:induction false} PrintMany(k: nat, n: nat, c: Byte)
    requires c != NEWLINE && c != RETURN && c != BACKSPACE
    ensures CursorAfter(Printed(k), c, n) == Printed(k + n)
    decreases n
  {
    if n > 0 {
      assert NextCursor(Printed(k), c) == Printed(k + 1) by { ModSucc(k, NUM_COLS); }
      PrintMany(k + 1, n - 1, c);
    }
  }

  lemma {:induction false} EraseMany(k: nat, n: nat)
    requires n <= k
    ensures CursorAfter(Erased(k), BACKSPACE, n) == Erased(k - n)
    decreases n
  {
    if n > 0 {
      assert NextCursor(Erased(k), BACKSPACE) == Erased(k - 1) by { ModSucc(k - 1, NUM_COLS); }
      EraseMany(k - 1, n - 1);
    }
  }

  lemma {:induction false} PutAllSplit(mem: seq<Byte>, ptr: int, cur: Cursor, a: seq<Byte>, b: seq<Byte>)
    requires Holds(mem, ptr)
    ensures var d := PutAll(mem, ptr, cur, a);
            PutAll(mem, ptr, cur, a + b) == PutAll(d.mem, ptr, d.cur, b)
    decreases |a|
  {
    if a == [] {
      assert a + b == b;
    } else {
      assert (a + b)[1..] == a[1..] + b;
      var d := Put(mem, ptr, cur, a[0]);
      PutAllSplit(d.mem, ptr, d.cur, a[1..], b);
    }
  }

  /** n characters and then m backspaces on a cleared screen. */
  lemma CursorOfLongLine(mem: seq<Byte>, ptr: int, c: Byte, n: nat, m: nat)
    requires Holds(mem, ptr) && c != NEWLINE && c != RETURN && c != BACKSPACE && n == 2000 && m <= n
    ensures PutAll(mem, ptr, Cursor(0, 0, 0), Repeated(c, n) + Repeated(BACKSPACE, m)).cur == Erased(n - m)
  {
    var d := PutAll(mem, ptr, Printed(0), Repeated(c, n));
    PutMany(mem, ptr, Printed(0), c, n);
    PrintMany(0, n, c);
    assert d.cur == Printed(n) == Erased(n);
    PutMany(d.mem, ptr, d.cur, BACKSPACE, m);
    EraseMany(n, m);
    PutAllSplit(mem, ptr, Printed(0), Repeated(c, n), Repeated(BACKSPACE, m));
  }

  /** 2000 characters and 1968 backspaces on a cleared screen put the cursor above the screen;
      one more backspace blanks a cell 98 bytes before the terminal's own memory. */
  lemma BackspaceEscapes(mem: seq<Byte>, ptr: int, c: Byte)
    requires Holds(mem, ptr) && ptr >= 98 && c != NEWLINE && c != RETURN && c != BACKSPACE
    ensures var d := PutAll(mem, ptr, Cursor(0, 0, 0), Repeated(c, 2000) + Repeated(BACKSPACE, 1968));
            && d.cur == Cursor(32, 32, -1)
            && Put(d.mem, ptr, d.cur, BACKSPACE).mem[ptr - 98] == SPACE
  {
    CursorOfLongLine(mem, ptr, c, 2000, 1968);
    var d := PutAll(mem, ptr, Cursor(0, 0, 0), Repeated(c, 2000) + Repeated(BACKSPACE, 1968));
    BlankedAt(d.mem, ptr);
  }

  lemma BlankedAt(mem: seq<Byte>, ptr: int)
    requires Holds(mem, ptr) && ptr >= 98
    ensures Put(mem, ptr, Cursor(32, 32, -1), BACKSPACE).mem[ptr - 98] == SPACE
  {
    assert PutCell(mem, ptr, Cursor(31, 31, -1), SPACE)[ptr - 98] == [SPACE, ATTRIB][0];
  }
}
