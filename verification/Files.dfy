/** Open files: the descriptor table of a process (file.c) with the file, directory and clock
    operations behind it (filesys.c, rtc.c). */
module Files {
  import opened Machine
  import opened UserMemory
  import opened FileSystem

  const MAX_FILES := 8

  datatype Kind = Stdin | Stdout | Clock | Directory | Plain | Mouse

  /** file_obj_t; the operations table is the kind. */
  datatype Fd = Fd(kind: Kind, inode: U32, offset: U32, valid: bool)

  datatype Call =
    | Open(name: Option<seq<Byte>>)               // None: not a string in user memory
    | Read(fd: int, ptr: U32, nbytes: int)
    | SetRate(fd: int, nbytes: int, word: Option<U32>)   // write to a clock; None: not in user memory
    | Close(fd: int)

  /** The return value, and what was written to the caller's buffer. */
  datatype Reply = Reply(ret: int, data: seq<Byte>)

  const FAILED := Reply(-1, [])

  // ---------------------------------------------------------------- one descriptor

  /** rtc_freq_to_rs, as far as it decides. */
  predicate FreqOk(f: int) { f in {2, 4, 8, 16, 32, 64, 128, 256, 512, 1024} }

  lemma FreqIsPower(f: int)
    ensures FreqOk(f) <==> exists k: nat :: 1 <= k <= 10 && f == Pow2(k)
  {
    Powers();
    if f == 2 { assert f == Pow2(1); }
    if f == 4 { assert f == Pow2(2); }
    if f == 8 { assert f == Pow2(3); }
    if f == 16 { assert f == Pow2(4); }
    if f == 32 { assert f == Pow2(5); }
    if f == 64 { assert f == Pow2(6); }
    if f == 128 { assert f == Pow2(7); }
    if f == 256 { assert f == Pow2(8); }
    if f == 512 { assert f == Pow2(9); }
    if f == 1024 { assert f == Pow2(10); }
  }

  lemma Powers()
    ensures Pow2(1) == 2 && Pow2(2) == 4 && Pow2(3) == 8 && Pow2(4) == 16 && Pow2(5) == 32
    ensures Pow2(6) == 64 && Pow2(7) == 128 && Pow2(8) == 256 && Pow2(9) == 512 && Pow2(10) == 1024
  {
    assert Pow2(4) == 16;
    assert Pow2(8) == 256;
  }

  datatype Done = Done(d: Fd, reply: Reply)

  /** fs_file_read: an error is added to the offset like a count. */
  ghost function ReadPlain(img: Image, d: Fd, ptr: U32, nbytes: int): Done
    requires ImageOk(img)
  {
    if !UserRange(ptr, nbytes) then Done(d, FAILED)
    else match Slice(img, d.inode, d.offset, nbytes)
      case Failed => Done(d.(offset := Add32(d.offset, WORD - 1)), FAILED)
      case Bytes(data) => Done(d.(offset := Add32(d.offset, |data|)), Reply(|data|, data))
  }

  /** fs_dir_read. */
  function ReadDirectory(img: Image, d: Fd, ptr: U32, nbytes: int): Done
    requires img.count <= |img.dentries|
  {
    if !UserRange(ptr, nbytes) then Done(d, FAILED)
    else if d.offset >= img.count then Done(d, Reply(0, []))
    else
      var name := CString(img.dentries[d.offset].name);
      var data := name[..Min(Min(nbytes, MAX_NAME), |name|)];
      Done(d.(offset := Add32(d.offset, 1)), Reply(|data|, data))
  }

  /** rtc_write. */
  function WriteClock(d: Fd, nbytes: int, word: Option<U32>): Done {
    if nbytes == 4 && word.Some? && FreqOk(word.value) then Done(d.(offset := word.value), Reply(0, [])) else Done(d, FAILED)
  }

  // ---------------------------------------------------------------- the table

  function KindOf(t: U32): Option<Kind> {
    if t == FTYPE_RTC then Some(Clock) else if t == FTYPE_DIR then Some(Directory)
    else if t == FTYPE_FILE then Some(Plain) else if t == FTYPE_MOUSE then Some(Mouse) else None
  }

  /** init_file_obj and the open operation. */
  function Fresh(d: Fd, e: Dentry): Fd {
    match KindOf(e.kind)
    case None => d.(inode := 0, offset := 0)
    case Some(k) => Fd(k, if k == Plain then e.inode else 0, if k == Clock then 2 else 0, true)
  }

  /** The lowest free slot from i on, or MAX_FILES. */
  function FreeSlot(t: seq<Fd>, i: nat): (r: nat)
    requires i <= |t|
    ensures i <= r <= |t| && (r < |t| ==> !t[r].valid)
    ensures forall j :: i <= j < r ==> t[j].valid
    decreases |t| - i
  {
    if i == |t| || !t[i].valid then i else FreeSlot(t, i + 1)
  }

  predicate Valid(t: seq<Fd>, fd: int) { 0 <= fd < |t| && t[fd].valid }

  datatype Next = Next(t: seq<Fd>, reply: Reply)

  ghost function Step(img: Image, t: seq<Fd>, c: Call): Next
    requires ImageOk(img) && |t| == MAX_FILES
  {
    match c
    case Open(name) =>
      var i := FreeSlot(t, 2);
      if name == None || i == MAX_FILES then Next(t, FAILED)
      else (match Lookup(img, name.value)
        case None => Next(t, FAILED)
        case Some(e) =>
          var d := Fresh(t[i], e);
          Next(t[i := d], if d.valid then Reply(i, []) else FAILED))
    case Read(fd, ptr, nbytes) =>
      if !Valid(t, fd) then Next(t, FAILED)
      else if t[fd].kind == Plain then
        var r := ReadPlain(img, t[fd], ptr, nbytes); Next(t[fd := r.d], r.reply)
      else if t[fd].kind == Directory then
        var r := ReadDirectory(img, t[fd], ptr, nbytes); Next(t[fd := r.d], r.reply)
      else Next(t, FAILED)    // no other read touches the table; what they return is not modelled here
    case SetRate(fd, nbytes, word) =>
      if !Valid(t, fd) || t[fd].kind != Clock then Next(t, FAILED)
      else var r := WriteClock(t[fd], nbytes, word); Next(t[fd := r.d], r.reply)
    case Close(fd) =>
      if !Valid(t, fd) || t[fd].kind == Stdin || t[fd].kind == Stdout then Next(t, FAILED)
      else Next(t[fd := t[fd].(valid := false)], Reply(0, []))
  }

  /** What every open descriptor keeps. */
  ghost predicate FdOk(img: Image, d: Fd) {
    && (d.kind == Clock ==> FreqOk(d.offset))
    && (d.kind == Plain && d.inode < |img.inodes| ==> d.offset <= img.inodes[d.inode].size)
    && (d.kind == Directory ==> d.offset <= img.count)
  }

  ghost predicate TableOk(img: Image, t: seq<Fd>) {
    && |t| == MAX_FILES
    && t[0].kind == Stdin && t[0].valid && t[1].kind == Stdout && t[1].valid
    && (forall i :: 2 <= i < MAX_FILES && t[i].valid ==> t[i].kind != Stdin && t[i].kind != Stdout)
    && (forall i :: 0 <= i < MAX_FILES && t[i].valid ==> FdOk(img, t[i]))
  }

  lemma ReadPlainOk(img: Image, d: Fd, ptr: U32, nbytes: int)
    requires ImageOk(img) && d.kind == Plain && FdOk(img, d)
    ensures FdOk(img, ReadPlain(img, d, ptr, nbytes).d)
  {
    if d.inode < |img.inodes| { assert InodeOk(img, img.inodes[d.inode]); }
  }

  /** Standard input and output stay open, clocks keep a legal rate, positions stay in range. */
  lemma StepOk(img: Image, t: seq<Fd>, c: Call)
    requires ImageOk(img) && TableOk(img, t)
    ensures TableOk(img, Step(img, t, c).t)
  {
    match c
    case Open(name) =>
    case Read(fd, ptr, nbytes) =>
      if Valid(t, fd) && t[fd].kind == Plain { ReadPlainOk(img, t[fd], ptr, nbytes); }
    case SetRate(fd, nbytes, word) =>
    case Close(fd) =>
  }

  ghost function After(img: Image, t: seq<Fd>, cs: seq<Call>): (r: seq<Fd>)
    requires ImageOk(img) && |t| == MAX_FILES
    ensures |r| == MAX_FILES
    decreases |cs|
  {
    if cs == [] then t else After(img, Step(img, t, cs[0]).t, cs[1..])
  }

  lemma {:induction false} RunOk(img: Image, t: seq<Fd>, cs: seq<Call>)
    requires ImageOk(img) && TableOk(img, t)
    ensures TableOk(img, After(img, t, cs))
    decreases |cs|
  {
    if cs != [] {
      StepOk(img, t, cs[0]);
      RunOk(img, Step(img, t, cs[0]).t, cs[1..]);
    }
  }

  /** file_init, on whatever the slots held before. */
  function Initial(before: seq<Fd>): seq<Fd>
    requires |before| == MAX_FILES
  {
    seq(MAX_FILES, i requires 0 <= i < MAX_FILES =>
      if i == 0 then before[0].(kind := Stdin, valid := true)
      else if i == 1 then before[1].(kind := Stdout, valid := true)
      else before[i].(valid := false))
  }

  lemma InitialOk(img: Image, before: seq<Fd>)
    requires |before| == MAX_FILES
    ensures TableOk(img, Initial(before))
  {
  }

  // ---------------------------------------------------------------- what each call does

  /** The descriptor a new file gets: the lowest that is free, never 0 or 1. */
  ghost predicate LowestFree(t: seq<Fd>, fd: int) {
    2 <= fd < |t| && !t[fd].valid && forall j :: 2 <= j < fd ==> t[j].valid
  }

  /** Opening a name no entry has, an unreadable name, or with all descriptors in use, fails and
      changes nothing. */
  lemma OpenFails(img: Image, t: seq<Fd>, name: Option<seq<Byte>>)
    requires ImageOk(img) && |t| == MAX_FILES
    requires || name == None
             || (forall i :: 0 <= i < img.count ==> CString(img.dentries[i].name) != CString(name.value))
             || (forall j :: 2 <= j < MAX_FILES ==> t[j].valid)
    ensures Step(img, t, Open(name)) == Next(t, Reply(-1, []))
  {
    if name.Some? { LookupMeans(img, name.value); }
  }

  /** Otherwise it yields the lowest free descriptor, set up by the type of the entry: a clock at
      2 Hz, a directory at its first entry, a file at its first byte, the mouse; an entry of any
      other type cannot be opened. */
  lemma OpenYields(img: Image, t: seq<Fd>, name: seq<Byte>, fd: int, i: int)
    requires ImageOk(img) && |t| == MAX_FILES && LowestFree(t, fd)
    requires 0 <= i < img.count && CString(img.dentries[i].name) == CString(name)
    requires forall j :: 0 <= j < i ==> CString(img.dentries[j].name) != CString(name)
    ensures var n := Step(img, t, Open(Some(name))); var e := img.dentries[i];
            && |n.t| == MAX_FILES && (forall j :: 0 <= j < MAX_FILES && j != fd ==> n.t[j] == t[j])
            && (e.kind == 0 ==> n.reply.ret == fd && n.t[fd].valid && n.t[fd].kind == Clock && n.t[fd].offset == 2)
            && (e.kind == 1 ==> n.reply.ret == fd && n.t[fd].valid && n.t[fd].kind == Directory && n.t[fd].offset == 0)
            && (e.kind == 2 ==> n.reply.ret == fd && n.t[fd] == Fd(Plain, e.inode, 0, true))
            && (e.kind == 3 ==> n.reply.ret == fd && n.t[fd].valid && n.t[fd].kind == Mouse)
            && (e.kind > 3 ==> n.reply.ret == -1 && !n.t[fd].valid)
  {
    LookupMeans(img, name);
    assert FreeSlot(t, 2) == fd;
  }

  /** A descriptor that is not open can be neither read, set nor closed. */
  lemma NotOpen(img: Image, t: seq<Fd>, fd: int, ptr: U32, nbytes: int, word: Option<U32>)
    requires ImageOk(img) && |t| == MAX_FILES && (fd < 0 || fd >= MAX_FILES || !t[fd].valid)
    ensures Step(img, t, Read(fd, ptr, nbytes)) == Next(t, Reply(-1, []))
    ensures Step(img, t, SetRate(fd, nbytes, word)) == Next(t, Reply(-1, []))
    ensures Step(img, t, Close(fd)) == Next(t, Reply(-1, []))
  {
  }

  /** An open descriptor from 2 on can be closed, and then is not open; 0 and 1 cannot. */
  lemma CloseFrees(img: Image, t: seq<Fd>, fd: int)
    requires ImageOk(img) && TableOk(img, t) && 0 <= fd < MAX_FILES && t[fd].valid
    ensures var n := Step(img, t, Close(fd));
            && |n.t| == MAX_FILES && (forall j :: 0 <= j < MAX_FILES && j != fd ==> n.t[j] == t[j])
            && n.t[fd].valid == (fd < 2) && n.reply.ret == if fd < 2 then -1 else 0
  {
  }

  /** So the next open after closing the lowest descriptor in use from 2 on gets that descriptor. */
  lemma ClosedIsReused(img: Image, t: seq<Fd>, fd: int, name: seq<Byte>)
    requires ImageOk(img) && TableOk(img, t) && 2 <= fd < MAX_FILES && (forall j :: 2 <= j <= fd ==> t[j].valid)
    requires Lookup(img, name).Some? && Lookup(img, name).value.kind <= 3
    ensures Step(img, Step(img, t, Close(fd)).t, Open(Some(name))).reply.ret == fd
  {
    CloseFrees(img, t, fd);
    assert FreeSlot(Step(img, t, Close(fd)).t, 2) == fd;
  }

  /** A clock runs at the rate last written to it, if that is a power of two from 2 to 1024 given in four
      readable bytes; otherwise the write fails and the rate stays. */
  lemma RateIsSet(img: Image, t: seq<Fd>, fd: int, nbytes: int, word: Option<U32>)
    requires ImageOk(img) && TableOk(img, t) && Valid(t, fd) && t[fd].kind == Clock
    ensures var n := Step(img, t, SetRate(fd, nbytes, word));
            var legal := nbytes == 4 && word.Some? && exists k: nat :: 1 <= k <= 10 && word.value == Pow2(k);
            && n.t == t[fd := t[fd].(offset := if legal then word.value else t[fd].offset)]
            && n.reply.ret == if legal then 0 else -1
  {
    if word.Some? { FreqIsPower(word.value); }
  }

  /** Reading a directory into a short buffer gives as much of the name as fits. */
  lemma ShortNames(img: Image, t: seq<Fd>, fd: int, ptr: U32, nbytes: int)
    requires ImageOk(img) && TableOk(img, t) && Valid(t, fd) && t[fd].kind == Directory
    requires UserRange(ptr, nbytes) && t[fd].offset < img.count
    ensures var name := CString(img.dentries[t[fd].offset].name); var r := Step(img, t, Read(fd, ptr, nbytes)).reply;
            r.data <= name && r.ret == |r.data| && |r.data| == if nbytes < |name| then nbytes else |name|
  {
    assert |img.dentries[t[fd].offset].name| == MAX_NAME;
  }

  // ---------------------------------------------------------------- what a reader sees

  /** The data of every read of fd, in order. */
  ghost function Replies(img: Image, t: seq<Fd>, cs: seq<Call>, fd: int): seq<Reply>
    requires ImageOk(img) && |t| == MAX_FILES
    decreases |cs|
  {
    if cs == [] then []
    else
      var n := Step(img, t, cs[0]);
      (if cs[0].Read? && cs[0].fd == fd then [n.reply] else []) + Replies(img, n.t, cs[1..], fd)
  }

  function Joined(rs: seq<Reply>): seq<Byte> {
    if rs == [] then [] else rs[0].data + Joined(rs[1..])
  }

  /** How many bytes a call asks of fd with a usable buffer. */
  function Own(c: Call, fd: int): nat {
    if c.Read? && c.fd == fd && UserRange(c.ptr, c.nbytes) then c.nbytes else 0
  }

  function Wanted(cs: seq<Call>, fd: int): nat {
    if cs == [] then 0 else Own(cs[0], fd) + Wanted(cs[1..], fd)
  }

  predicate Keeps(cs: seq<Call>, fd: int) { forall i :: 0 <= i < |cs| ==> cs[i] != Close(fd) }

  /** No call on another descriptor, and no open, moves this one. */
  lemma OthersKeep(img: Image, t: seq<Fd>, c: Call, fd: int)
    requires ImageOk(img) && TableOk(img, t) && Valid(t, fd) && c != Close(fd)
    requires !(c.Read? && c.fd == fd) && !(c.SetRate? && c.fd == fd)
    ensures Step(img, t, c).t[fd] == t[fd]
  {
  }

  /** One call, seen from an open plain file. */
  lemma PlainStep(img: Image, t: seq<Fd>, c: Call, fd: int)
    requires ImageOk(img) && TableOk(img, t) && Valid(t, fd) && c != Close(fd)
    requires t[fd].kind == Plain && t[fd].inode < |img.inodes|
    ensures Delivers(img, t[fd], Own(c, fd), if ReadsFrom(c, fd) then Step(img, t, c).reply.data else [], Step(img, t, c).t[fd])
    ensures Own(c, fd) > 0 ==> Step(img, t, c).reply.ret == |Step(img, t, c).reply.data|
  {
    assert InodeOk(img, img.inodes[t[fd].inode]);
    if !(c.Read? && c.fd == fd) && !(c.SetRate? && c.fd == fd) { OthersKeep(img, t, c, fd); }
  }

  predicate ReadsFrom(c: Call, fd: int) { c.Read? && c.fd == fd }

  lemma JoinedStep(img: Image, t: seq<Fd>, cs: seq<Call>, fd: int, n: Next, rest: seq<Reply>)
    requires ImageOk(img) && |t| == MAX_FILES && cs != [] && n == Step(img, t, cs[0])
    requires rest == Replies(img, n.t, cs[1..], fd)
    ensures Joined(Replies(img, t, cs, fd)) == (if ReadsFrom(cs[0], fd) then n.reply.data else []) + Joined(rest)
  {
    if ReadsFrom(cs[0], fd) {
      assert ([n.reply] + rest)[1..] == rest;
    } else {
      assert [] + rest == rest;
    }
  }

  /** What the reads of descriptor d ask for is what they deliver. */
  ghost predicate Delivers(img: Image, d: Fd, wanted: nat, got: seq<Byte>, d': Fd)
    requires ImageOk(img) && d.inode < |img.inodes|
  {
    var to := Min(d.offset + wanted, img.inodes[d.inode].size);
    d.offset <= to && got == Content(img, d.inode)[d.offset..to] && d' == d.(offset := to)
  }

  lemma DeliversMore(img: Image, d: Fd, w1: nat, g1: seq<Byte>, d1: Fd, w2: nat, g2: seq<Byte>, d2: Fd,
                     w: nat, g: seq<Byte>, d': Fd)
    requires ImageOk(img) && d.inode < |img.inodes|
    requires Delivers(img, d, w1, g1, d1) && Delivers(img, d1, w2, g2, d2)
    requires w == w1 + w2 && g == g1 + g2 && d' == d2
    ensures Delivers(img, d, w, g, d')
  {
    var file := Content(img, d.inode);
    assert file[d.offset..d1.offset] + file[d1.offset..d2.offset] == file[d.offset..d2.offset];
  }

  /** The reads of an open file return consecutive pieces: together exactly the file from where
      the descriptor stood, as far as they asked, whatever else the process opens, reads and closes
      in between. */
  lemma {:induction false} ConsecutivePieces(img: Image, t: seq<Fd>, cs: seq<Call>, fd: int)
    requires ImageOk(img) && TableOk(img, t) && Valid(t, fd) && Keeps(cs, fd)
    requires t[fd].kind == Plain && t[fd].inode < |img.inodes|
    ensures Delivers(img, t[fd], Wanted(cs, fd), Joined(Replies(img, t, cs, fd)), After(img, t, cs)[fd])
    decreases |cs|
  {
    if cs == [] {
      assert FdOk(img, t[fd]);
    } else {
      var n := Step(img, t, cs[0]);
      StepOk(img, t, cs[0]);
      PlainStep(img, t, cs[0], fd);
      ConsecutivePieces(img, n.t, cs[1..], fd);
      var rest := Replies(img, n.t, cs[1..], fd);
      JoinedStep(img, t, cs, fd, n, rest);
      DeliversMore(img, t[fd], Own(cs[0], fd), if ReadsFrom(cs[0], fd) then n.reply.data else [], n.t[fd],
                   Wanted(cs[1..], fd), Joined(rest), After(img, n.t, cs[1..])[fd],
                   Wanted(cs, fd), Joined(Replies(img, t, cs, fd)), After(img, t, cs)[fd]);
    }
  }

  /** Opening a plain file by its listed name and reading as much as it holds gives its contents,
      whatever else goes on. */
  lemma OpenedFileIsReadWhole(img: Image, t: seq<Fd>, i: int, cs: seq<Call>)
    requires ImageOk(img) && TableOk(img, t) && 0 <= i < img.count
    requires forall j, k :: 0 <= j < k < img.count ==> CString(img.dentries[j].name) != CString(img.dentries[k].name)
    requires img.dentries[i].kind == FTYPE_FILE && img.dentries[i].inode < |img.inodes|
    requires FreeSlot(t, 2) < MAX_FILES && Keeps(cs, FreeSlot(t, 2))
    requires Wanted(cs, FreeSlot(t, 2)) >= img.inodes[img.dentries[i].inode].size
    ensures var n := Step(img, t, Open(Some(CString(img.dentries[i].name) + [0])));
            && n.reply.ret == FreeSlot(t, 2)
            && |n.t| == MAX_FILES && Joined(Replies(img, n.t, cs, n.reply.ret)) == Content(img, img.dentries[i].inode)
  {
    var c := Open(Some(CString(img.dentries[i].name) + [0]));
    DistinctNamesRoundTrip(img, i);
    StepOk(img, t, c);
    var n, fd := Step(img, t, c), FreeSlot(t, 2);
    ConsecutivePieces(img, n.t, cs, fd);
    var file := Content(img, img.dentries[i].inode);
    assert file[0..|file|] == file;
  }

  /** A read with a usable buffer fails exactly when the directory entry named no inode. */
  lemma ReadFailsExactly(img: Image, d: Fd, ptr: U32, nbytes: int)
    requires ImageOk(img) && FdOk(img, d) && d.kind == Plain && UserRange(ptr, nbytes)
    ensures ReadPlain(img, d, ptr, nbytes).reply.ret == -1 <==> d.inode >= |img.inodes|
  {
  }

  /** Over every run of calls: a read with a usable buffer fails and moves the position if and only if
      the descriptor's inode is out of range. */
  lemma FailedReadMoves(img: Image, before: seq<Fd>, cs: seq<Call>, fd: int, ptr: U32, nbytes: int)
    requires ImageOk(img) && |before| == MAX_FILES && UserRange(ptr, nbytes)
    requires var t := After(img, Initial(before), cs); Valid(t, fd) && t[fd].kind == Plain
    ensures var t := After(img, Initial(before), cs); var n := Step(img, t, Read(fd, ptr, nbytes));
            && (n.reply.ret == -1 <==> t[fd].inode >= |img.inodes|)
            && (n.reply.ret == -1 && n.t[fd].offset != t[fd].offset <==> t[fd].inode >= |img.inodes|)
  {
    InitialOk(img, before);
    RunOk(img, Initial(before), cs);
    var t := After(img, Initial(before), cs);
    ReadFailsExactly(img, t[fd], ptr, nbytes);
  }

  /** The reads of fd with a usable buffer. */
  function UsableReads(cs: seq<Call>, fd: int): nat {
    if cs == [] then 0
    else (if ReadsFrom(cs[0], fd) && UserRange(cs[0].ptr, cs[0].nbytes) then 1 else 0) + UsableReads(cs[1..], fd)
  }

  lemma BadStep(img: Image, t: seq<Fd>, c: Call, fd: int)
    requires ImageOk(img) && TableOk(img, t) && Valid(t, fd) && c != Close(fd)
    requires t[fd].kind == Plain && t[fd].inode >= |img.inodes|
    ensures Step(img, t, c).t[fd]
         == if ReadsFrom(c, fd) && UserRange(c.ptr, c.nbytes) then t[fd].(offset := (t[fd].offset - 1) % WORD) else t[fd]
  {
    if !ReadsFrom(c, fd) && !(c.SetRate? && c.fd == fd) { OthersKeep(img, t, c, fd); }
  }

  lemma WrapTwice(x: int, k: nat)
    ensures ((x - 1) % WORD - k) % WORD == (x - (k + 1)) % WORD
  {
  }

  /** Every such read of such a file moves the position one back, around zero. */
  lemma {:induction false} WalksBack(img: Image, t: seq<Fd>, cs: seq<Call>, fd: int)
    requires ImageOk(img) && TableOk(img, t) && Valid(t, fd) && Keeps(cs, fd)
    requires t[fd].kind == Plain && t[fd].inode >= |img.inodes|
    ensures After(img, t, cs)[fd] == t[fd].(offset := (t[fd].offset - UsableReads(cs, fd)) % WORD)
    decreases |cs|
  {
    if cs != [] {
      StepOk(img, t, cs[0]);
      BadStep(img, t, cs[0], fd);
      WalksBack(img, Step(img, t, cs[0]).t, cs[1..], fd);
      WrapTwice(t[fd].offset, UsableReads(cs[1..], fd));
    }
  }

  /** A directory with one file, called b, that names an inode the image does not have. */
  function NoInodes(): Image {
    Image(1, seq(MAX_DENTRIES, _ => Dentry([98] + seq(31, _ => 0), FTYPE_FILE, 0)), [], [])
  }

  /** Opened by any process and read once, it fails and leaves the descriptor four gigabytes in. */
  lemma BadInodeWalksBack(before: seq<Fd>, ptr: U32, nbytes: int)
    requires |before| == MAX_FILES && UserRange(ptr, nbytes)
    ensures ImageOk(NoInodes())
    ensures var n1 := Step(NoInodes(), Initial(before), Open(Some([98, 0])));
            && n1.reply.ret == 2 && |n1.t| == MAX_FILES && n1.t[2].offset == 0
            && var n2 := Step(NoInodes(), n1.t, Read(2, ptr, nbytes));
               n2.reply == FAILED && n2.t[2].offset == 0xFFFF_FFFF
  {
    var img := NoInodes();
    var e := img.dentries[0];
    assert e.name[..1] == [98];
    CStringUnique(e.name, 1);
    assert [98, 0][..1] == [98];
    CStringUnique([98, 0], 1);
    assert Find(img, [98], 0) == 0;
    assert FreeSlot(Initial(before), 2) == 2;
  }

  predicate RoomyReads(cs: seq<Call>, fd: int) {
    forall i :: 0 <= i < |cs| && cs[i].Read? && cs[i].fd == fd ==> UserRange(cs[i].ptr, cs[i].nbytes) && cs[i].nbytes >= MAX_NAME
  }

  /** The name of entry i, nothing past the last. */
  function Listed(img: Image, i: nat): seq<Byte>
    requires img.count <= |img.dentries|
  {
    if i < img.count then CString(img.dentries[i].name) else []
  }

  ghost predicate Lists(img: Image, from: nat, rs: seq<Reply>)
    requires img.count <= |img.dentries|
  {
    forall i :: 0 <= i < |rs| ==> rs[i] == Reply(|Listed(img, from + i)|, Listed(img, from + i))
  }

  lemma DirectoryStep(img: Image, t: seq<Fd>, c: Call, fd: int)
    requires ImageOk(img) && TableOk(img, t) && Valid(t, fd) && c != Close(fd) && RoomyReads([c], fd)
    requires t[fd].kind == Directory
    ensures var n, from := Step(img, t, c), t[fd].offset;
            && n.t[fd] == t[fd].(offset := if ReadsFrom(c, fd) && from < img.count then from + 1 else from)
            && Lists(img, from, if ReadsFrom(c, fd) then [n.reply] else [])
  {
    assert [c][0] == c;
    if !(c.Read? && c.fd == fd) && !(c.SetRate? && c.fd == fd) { OthersKeep(img, t, c, fd); }
    if ReadsFrom(c, fd) {
      assert |img.dentries[0].name| == MAX_NAME;
      assert Step(img, t, c).reply == Reply(|Listed(img, t[fd].offset)|, Listed(img, t[fd].offset));
    }
  }

  lemma ListsMore(img: Image, from: nat, one: seq<Reply>, rest: seq<Reply>, to: nat, all: seq<Reply>)
    requires img.count <= |img.dentries| && from <= img.count && all == one + rest
    requires |one| <= 1 && to == if one != [] && from < img.count then from + 1 else from
    requires Lists(img, from, one) && Lists(img, to, rest)
    ensures Lists(img, from, all)
  {
    forall i | 0 <= i < |all|
      ensures all[i] == Reply(|Listed(img, from + i)|, Listed(img, from + i))
    {
      if i < |one| {
        assert all[i] == one[i];
      } else {
        var j := i - |one|;
        assert all[i] == rest[j] == Reply(|Listed(img, to + j)|, Listed(img, to + j));
        assert Listed(img, to + j) == Listed(img, from + i);
      }
    }
  }

  /** Reading an open directory lists the names of its entries in order, then nothing. */
  lemma {:induction false} DirectoryListing(img: Image, t: seq<Fd>, cs: seq<Call>, fd: int)
    requires ImageOk(img) && TableOk(img, t) && Valid(t, fd) && Keeps(cs, fd) && RoomyReads(cs, fd)
    requires t[fd].kind == Directory
    ensures Lists(img, t[fd].offset, Replies(img, t, cs, fd))
    decreases |cs|
  {
    if cs != [] {
      var n := Step(img, t, cs[0]);
      StepOk(img, t, cs[0]);
      DirectoryStep(img, t, cs[0], fd);
      DirectoryListing(img, n.t, cs[1..], fd);
      ListsMore(img, t[fd].offset, if ReadsFrom(cs[0], fd) then [n.reply] else [], Replies(img, n.t, cs[1..], fd),
                n.t[fd].offset, Replies(img, t, cs, fd));
    }
  }
}
