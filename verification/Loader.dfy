/** Loading programs: process_load_exe in process.c through the page mapping of paging.c. */
module Loader {
  import opened Machine
  import opened UserMemory
  import opened FileSystem
  import opened Primitives
  import opened Commands

  const FRAME := 0x40_0000            // 4MB
  const KERNEL_END := 0x80_0000       // KERNEL_PAGE_END
  const IMAGE_START := 0x4_8000       // PROCESS_VADDR - USER_PAGE_START
  const ROOM := 0x3B_8000             // USER_PAGE_END - PROCESS_VADDR

  function Zeros(n: nat): seq<Byte> { Repeated(0, n) }

  /** A page holding a program and nothing else. */
  function Loaded(file: seq<Byte>): (r: seq<Byte>)
    requires |file| <= ROOM
    ensures |r| == FRAME
  {
    Zeros(IMAGE_START) + file + Zeros(ROOM - |file|)
  }

  // ---------------------------------------------------------------- frames

  /** The physical address of the frame of process pid. */
  function FrameOf(pid: nat): nat { (pid * 4 + 8) * 0x10_0000 }

  function FrameBytes(ram: seq<Byte>, pid: nat): seq<Byte>
    requires FrameOf(pid) + FRAME <= |ram|
  {
    Read(ram, FrameOf(pid), FRAME)
  }

  /** Writing one process's frame leaves the kernel and every other process's frame alone. */
  lemma OtherFramesKept(ram: seq<Byte>, pid: nat, bytes: seq<Byte>, other: nat)
    requires FrameOf(pid) + FRAME <= |ram| && |bytes| == FRAME && FrameOf(other) + FRAME <= |ram|
    ensures var ram' := Write(ram, FrameOf(pid), bytes);
            && ram'[..KERNEL_END] == ram[..KERNEL_END]
            && FrameBytes(ram', other) == if other == pid then bytes else FrameBytes(ram, other)
  {
    var ram' := Write(ram, FrameOf(pid), bytes);
    if other != pid {
      assert FrameOf(other) + FRAME <= FrameOf(pid) || FrameOf(pid) + FRAME <= FrameOf(other);
      assert FrameBytes(ram', other) == FrameBytes(ram, other);
    }
  }

  // ---------------------------------------------------------------- what a load does

  /** An exception in kernel mode stops the machine. */
  datatype Outcome = Entry(addr: U32) | Faulted

  datatype Load = Load(ram: seq<Byte>, outcome: Outcome)

  /** Loading a file through a user page mapped at physical address at.  Nothing is mapped from
      USER_PAGE_END on, so the first store there faults; the page is then full of file and still has
      its old beginning. */
  function LoadOf(ram: seq<Byte>, at: nat, file: seq<Byte>): (r: Load)
    requires at + FRAME <= |ram|
    ensures |r.ram| == |ram|
  {
    if |file| <= ROOM then
      Load(Write(ram, at, Loaded(file)), Entry(Word4(Loaded(file)[IMAGE_START + 24..IMAGE_START + 28])))
    else Load(Write(ram, at + IMAGE_START, file[..ROOM]), Faulted)
  }

  /** A load faults exactly for files of more than 0x3B8000 bytes.  Either way it writes nothing
      outside the frame of its own process. */
  lemma FitsExactly(ram: seq<Byte>, pid: nat, file: seq<Byte>, other: nat)
    requires FrameOf(pid) + FRAME <= |ram| && FrameOf(other) + FRAME <= |ram|
    ensures var l := LoadOf(ram, FrameOf(pid), file);
            && (l.outcome.Faulted? <==> |file| > ROOM)
            && (|file| <= ROOM ==> FrameBytes(l.ram, pid) == Loaded(file))
            && (other != pid ==> FrameBytes(l.ram, other) == FrameBytes(ram, other))
            && l.ram[..KERNEL_END] == ram[..KERNEL_END]
  {
    if |file| <= ROOM {
      OtherFramesKept(ram, pid, Loaded(file), other);
    } else {
      var at := FrameOf(pid);
      var page := ram[at..at + IMAGE_START] + file[..ROOM];
      assert Write(ram, at + IMAGE_START, file[..ROOM]) == Write(ram, at, page);
      OtherFramesKept(ram, pid, page, other);
    }
  }

  /** Byte by byte: zeros, then the file at 0x48000, then zeros. */
  lemma LoadedMeans(file: seq<Byte>, i: int)
    requires |file| <= ROOM && 0 <= i < FRAME
    ensures Loaded(file)[i] == if 0x4_8000 <= i < 0x4_8000 + |file| then file[i - 0x4_8000] else 0
  {
  }

  /** The entry point of a file that has one is its bytes 24 to 27. */
  lemma EntryPoint(ram: seq<Byte>, at: nat, file: seq<Byte>)
    requires at + FRAME <= |ram| && 28 <= |file| <= ROOM
    ensures LoadOf(ram, at, file).outcome == Entry(Word4(file[24..28]))
  {
    assert Loaded(file)[IMAGE_START + 24..IMAGE_START + 28] == file[24..28];
  }

  /** Frames follow the kernel page, one after the other. */
  lemma FramesFollow(pid: nat)
    ensures FrameOf(0) == 0x80_0000 && FrameOf(pid + 1) == FrameOf(pid) + 0x40_0000
  {
  }

  /** A directory with one executable, called b, of size bytes, all in one block. */
  function OneProgram(size: U32): Image {
    Image(1, seq(MAX_DENTRIES, _ => Dentry([98] + seq(31, _ => 0), FTYPE_FILE, 0)),
          [Inode(size, seq(MAX_BLOCKS, _ => 0))], [Bytes4(EXE_MAGIC) + seq(BLOCK - 4, _ => 0)])
  }

  lemma OneProgramIsExecutable(size: U32)
    requires 4 <= size <= MAX_BLOCKS * BLOCK
    ensures ImageOk(OneProgram(size)) && |Content(OneProgram(size), 0)| == size
    ensures Executable(OneProgram(size), [98]) == Some(0)
  {
    var img := OneProgram(size);
    assert ImageOk(img) by { assert InodeOk(img, img.inodes[0]); }
    var e := img.dentries[0];
    assert e.name[..1] == [98];
    CStringUnique(e.name, 1);
    assert [98] + [0] == [98, 0] && [98, 0][..1] == [98];
    CStringUnique([98, 0], 1);
    assert Find(img, [98], 0) == 0;
    forall i | 0 <= i < 4 ensures Content(img, 0)[i] == Bytes4(EXE_MAGIC)[i] {
      assert i / BLOCK == 0 && i % BLOCK == i;
    }
    assert Content(img, 0)[..4] == Bytes4(EXE_MAGIC);
    WordRoundTrip(EXE_MAGIC);
  }

  /** A well-formed image with a file that process_parse_cmd accepts and that is one byte too long:
      executing it faults, whatever the memory holds. */
  lemma OneByteTooLong(ram: seq<Byte>, pid: nat)
    requires FrameOf(pid) + FRAME <= |ram|
    ensures var img := OneProgram(ROOM + 1);
            && ImageOk(img) && Executable(img, [98]) == Some(0) && 0 < |img.inodes|
            && LoadOf(ram, FrameOf(pid), Content(img, 0)).outcome == Faulted
  {
    OneProgramIsExecutable(ROOM + 1);
  }

  // ---------------------------------------------------------------- the code

  lemma FilledMore(b: seq<Byte>, m: seq<Byte>, base: nat, x: seq<Byte>, y: seq<Byte>, b': seq<Byte>)
    requires Filled(b, m, base, x) && base + |x| + |y| <= |b| && b' == Write(b, base + |x|, y)
    ensures Filled(b', m, base, x + y)
  {
    forall j | 0 <= j < |b'|
      ensures b'[j] == if base <= j < base + |x + y| then (x + y)[j - base] else m[j]
    {
      if base + |x| <= j < base + |x| + |y| { assert Read(b', base + |x|, |y|)[j - base - |x|] == y[j - base - |x|]; }
    }
  }

  lemma FilledNext(b: seq<Byte>, m: seq<Byte>, base: nat, file: seq<Byte>, offset: nat, count: nat, b': seq<Byte>)
    requires offset + count <= |file| && base + offset + count <= |b|
    requires Filled(b, m, base, file[..offset]) && b' == Write(b, base + offset, file[offset..offset + count])
    ensures Filled(b', m, base, file[..offset + count])
  {
    FilledMore(b, m, base, file[..offset], file[offset..offset + count], b');
    assert file[..offset] + file[offset..offset + count] == file[..offset + count];
  }

  lemma FilledPart(b: seq<Byte>, m: seq<Byte>, base: nat, file: seq<Byte>, offset: nat, count: nat, k: nat, b': seq<Byte>)
    requires k <= count && offset + count <= |file| && base + offset + k <= |b|
    requires Filled(b, m, base, file[..offset]) && b' == Write(b, base + offset, file[offset..offset + count][..k])
    ensures Filled(b', m, base, file[..offset + k])
  {
    assert file[offset..offset + count][..k] == file[offset..offset + k];
    FilledNext(b, m, base, file, offset, k, b');
  }

  lemma LoadedTogether(m: seq<Byte>, at: nat, file: seq<Byte>, b1: seq<Byte>, b3: seq<Byte>)
    requires |file| <= ROOM && at + FRAME <= |m| && Filled(b1, m, at + IMAGE_START, file)
    requires b3 == Write(Write(b1, at, Zeros(IMAGE_START)), at + (IMAGE_START + |file|), Zeros(ROOM - |file|))
    ensures b3 == Write(m, at, Loaded(file))
  {
    var b2 := Write(b1, at, Zeros(IMAGE_START));
    assert Filled(b2, m, at, Zeros(IMAGE_START) + file);
    FilledMore(b2, m, at, Zeros(IMAGE_START) + file, Zeros(ROOM - |file|), b3);
    FilledIsWrite(b3, m, at, Loaded(file));
  }

  lemma LoadedAt(m: seq<Byte>, at: nat, bytes: seq<Byte>, off: nat, n: nat)
    requires at + |bytes| <= |m| && off + n <= |bytes|
    ensures Write(m, at, bytes)[at + off..at + off + n] == bytes[off..off + n]
  {
  }

  ghost function ChunkSize(img: Image, n: U32, offset: nat): nat
    requires n < |img.inodes| && offset <= img.inodes[n].size
  {
    Min(4096, img.inodes[n].size - offset)
  }

  lemma ChunkSlice(img: Image, n: U32, offset: U32, count: nat)
    requires ImageOk(img) && n < |img.inodes| && offset <= img.inodes[n].size && count == ChunkSize(img, n, offset)
    ensures Slice(img, n, offset, 4096) == Bytes(Content(img, n)[offset..offset + count])
  {
  }

  /** What a chunk adds to the part of the file already there. */
  lemma ChunkDone(file: seq<Byte>, offset: nat, count: nat, limit: nat, at: nat,
                  m: seq<Byte>, b: seq<Byte>, b': seq<Byte>, r: ReadResult)
    requires offset + count <= |file| && Filled(b, m, at, file[..offset])
    requires ReadAs(Bytes(file[offset..offset + count]), limit, at + offset, b, b', r)
    ensures at + offset + count <= limit ==> r == Count(count) && Filled(b', m, at, file[..offset + count])
    ensures at + offset + count > limit ==> r == Fault && Filled(b', m, at, file[..limit - at])
  {
    if at + offset + count <= limit {
      FilledNext(b, m, at, file, offset, count, b');
    } else {
      FilledPart(b, m, at, file, offset, count, limit - at - offset, b');
    }
  }

  lemma LoadFaulted(b: seq<Byte>, m: seq<Byte>, at: nat, file: seq<Byte>)
    requires |file| > ROOM && at + FRAME <= |m| && Filled(b, m, at + IMAGE_START, file[..ROOM])
    ensures Load(b, Faulted) == LoadOf(m, at, file)
  {
    FilledIsWrite(b, m, at + IMAGE_START, file[..ROOM]);
  }

  class Memory {
    const ram: array<Byte>
    var base: nat               // base_addr of the page directory entry of the user page

    ghost predicate Mapped()
      reads this, ram
    {
      base * FRAME + FRAME <= ram.Length
    }

    constructor (size: nat)
      ensures fresh(ram) && ram.Length == size
    {
      ram := new Byte[size](_ => 0);
      base := 0;
    }

    /** paging_update_process_page; base_addr is a 10-bit field. */
    method UpdateProcessPage(pid: nat)
      requires pid < 1022
      modifies `base
      ensures base * FRAME == FrameOf(pid)
    {
      var phys := (pid * 4 + 8) * 0x10_0000;
      base := phys / 0x40_0000 % 0x400;
    }

    /** One round of the copying loop of process_load_exe. */
    method CopyChunk(img: Image, n: U32, limit: nat, at: nat, offset: nat, ghost m: seq<Byte>) returns (r: ReadResult)
      requires ImageOk(img) && n < |img.inodes| && offset <= img.inodes[n].size && at + offset <= limit <= ram.Length
      requires Filled(ram[..], m, at, Content(img, n)[..offset])
      modifies ram
      ensures at + offset + ChunkSize(img, n, offset) <= limit ==>
                && r == Count(ChunkSize(img, n, offset))
                && Filled(ram[..], m, at, Content(img, n)[..offset + ChunkSize(img, n, offset)])
      ensures at + offset + ChunkSize(img, n, offset) > limit ==>
                r == Fault && Filled(ram[..], m, at, Content(img, n)[..limit - at])
    {
      assert InodeOk(img, img.inodes[n]);
      ghost var before, file, count := ram[..], Content(img, n), ChunkSize(img, n, offset);
      ChunkSlice(img, n, offset, count);
      r := ReadData(img, n, offset, ram, limit, at + offset, 4096);
      assert ReadAs(Bytes(file[offset..offset + count]), limit, at + offset, before, ram[..], r);
      ChunkDone(file, offset, count, limit, at, m, before, ram[..], r);
    }

    /** The loop: it ends because every round but the last reads something. */
    method CopyProgram(img: Image, n: U32, limit: nat, at: nat) returns (ok: bool, offset: int)
      requires ImageOk(img) && n < |img.inodes| && at <= limit <= ram.Length
      modifies ram
      ensures ok <==> at + img.inodes[n].size <= limit
      ensures ok ==> offset == img.inodes[n].size && Filled(ram[..], old(ram[..]), at, Content(img, n))
      ensures !ok ==> Filled(ram[..], old(ram[..]), at, Content(img, n)[..limit - at])
    {
      ghost var size := img.inodes[n].size;
      offset := 0;
      var r := Count(1);
      while r.n > 0
        invariant r.Count? && 0 <= offset <= size && at + offset <= limit && (r.n <= 0 ==> offset == size)
        invariant Filled(ram[..], old(ram[..]), at, Content(img, n)[..offset])
        decreases size - offset, r.n
      {
        r := CopyChunk(img, n, limit, at, offset, old(ram[..]));
        if r == Fault { return false, offset; }
        offset := offset + r.n;
      }
      assert Content(img, n)[..offset] == Content(img, n);
      return true, offset;
    }

    /** process_load_exe, for a file of any size. */
    method LoadExe(img: Image, n: U32) returns (r: Outcome)
      requires Mapped() && ImageOk(img) && n < |img.inodes|
      modifies ram
      ensures Load(ram[..], r) == LoadOf(old(ram[..]), base * FRAME, Content(img, n))
    {
      ghost var file, m, at := Content(img, n), ram[..], base * FRAME;
      var ok, offset := CopyProgram(img, n, base * FRAME + FRAME, base * FRAME + IMAGE_START);
      if !ok {
        LoadFaulted(ram[..], m, at, file);
        return Faulted;
      }
      ClearAround(file, m, offset);
      var entry := EntryWord(file, m);
      return Entry(entry);
    }

    /** The word at PROCESS_VADDR + 24. */
    method EntryWord(ghost file: seq<Byte>, ghost m: seq<Byte>) returns (w: U32)
      requires Mapped() && |file| <= ROOM && |m| == ram.Length && ram[..] == Write(m, base * FRAME, Loaded(file))
      ensures Load(ram[..], Entry(w)) == LoadOf(m, base * FRAME, file)
    {
      LoadedAt(m, base * FRAME, Loaded(file), IMAGE_START + 24, 4);
      w := Word4(ram[base * FRAME + IMAGE_START + 24..base * FRAME + IMAGE_START + 28]);
    }

    /** The two memsets of process_load_exe. */
    method ClearAround(ghost file: seq<Byte>, ghost m: seq<Byte>, offset: nat)
      requires Mapped() && offset == |file| <= ROOM && Filled(ram[..], m, base * FRAME + IMAGE_START, file)
      modifies ram
      ensures ram[..] == Write(m, base * FRAME, Loaded(file))
    {
      ghost var b1 := ram[..];
      MemSet(ram, base * FRAME, 0, IMAGE_START);
      MemSet(ram, base * FRAME + (IMAGE_START + offset), 0, Sub32(ROOM, offset));
      LoadedTogether(m, base * FRAME, file, b1, ram[..]);
    }

    /** The end of process_create_child: the child's frame holds the program and nothing else, the
        frames of all other processes and the kernel are as before. */
    method LoadChild(img: Image, n: U32, pid: nat) returns (r: Outcome)
      requires pid < 1022 && FrameOf(pid) + FRAME <= ram.Length
      requires ImageOk(img) && n < |img.inodes|
      modifies `base, ram
      ensures base * FRAME == FrameOf(pid)
      ensures Load(ram[..], r) == LoadOf(old(ram[..]), FrameOf(pid), Content(img, n))
      ensures r.Faulted? <==> img.inodes[n].size > ROOM
      ensures r.Entry? ==> FrameBytes(ram[..], pid) == Loaded(Content(img, n))
      ensures 28 <= img.inodes[n].size <= ROOM ==> r == Entry(Word4(Content(img, n)[24..28]))
      ensures forall q: nat :: q != pid && FrameOf(q) + FRAME <= ram.Length ==> FrameBytes(ram[..], q) == FrameBytes(old(ram[..]), q)
      ensures ram[..KERNEL_END] == old(ram[..KERNEL_END])
    {
      UpdateProcessPage(pid);
      r := LoadExe(img, n);
      if 28 <= img.inodes[n].size <= ROOM { EntryPoint(old(ram[..]), FrameOf(pid), Content(img, n)); }
      forall q: nat | FrameOf(q) + FRAME <= ram.Length
        ensures q != pid ==> FrameBytes(ram[..], q) == FrameBytes(old(ram[..]), q)
        ensures r.Entry? ==> FrameBytes(ram[..], pid) == Loaded(Content(img, n))
        ensures ram[..][..KERNEL_END] == old(ram[..])[..KERNEL_END]
      {
        FitsExactly(old(ram[..]), pid, Content(img, n), q);
      }
    }
  }
}
