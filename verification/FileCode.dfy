/** file.c, and the read and write operations of filesys.c and rtc.c, as code. */
module FileCode {
  import opened Machine
  import opened UserMemory
  import opened FileSystem
  import opened Files

  /** The page after a system call has put data at ptr. */
  ghost predicate Stored(m: seq<Byte>, m': seq<Byte>, ptr: U32, data: seq<Byte>) {
    if data == [] then m' == m
    else
      var at := ptr - USER_PAGE_START;
      0 <= at && at + |data| <= |m| && m' == Write(m, at, data)
  }

  class Process {
    const files: array<Fd>
    const page: array<Byte>       // the user page, from USER_PAGE_START on

    ghost predicate Ready()
      reads this, files, page
    {
      files.Length == MAX_FILES && page.Length == PAGE_SIZE
    }

    constructor ()
      ensures Ready() && fresh(files) && fresh(page)
      ensures exists before: seq<Fd> :: |before| == MAX_FILES && files[..] == Initial(before)
    {
      files := new Fd[MAX_FILES](_ => Fd(Plain, 0, 0, false));
      page := new Byte[PAGE_SIZE](_ => 0);
      new;
      Init();
    }

    /** file_init, on whatever was there. */
    method Init()
      requires Ready()
      modifies files
      ensures Ready() && files[..] == Initial(old(files[..]))
    {
      files[0] := files[0].(kind := Stdin, valid := true);
      files[1] := files[1].(kind := Stdout, valid := true);
      var i := 2;
      while i < MAX_FILES
        invariant 2 <= i <= MAX_FILES
        invariant forall j :: 0 <= j < i ==> files[j] == Initial(old(files[..]))[j]
        invariant forall j :: i <= j < MAX_FILES ==> files[j] == old(files[j])
      {
        files[i] := files[i].(valid := false);
        i := i + 1;
      }
    }

    /** is_user_readable_string. */
    method IsReadableString(ptr: U32) returns (ok: bool)
      requires Ready()
      ensures ok <==> USER_PAGE_START <= ptr < USER_PAGE_END && 0 in page[ptr - USER_PAGE_START..]
    {
      if ptr < USER_PAGE_START { return false; }
      var i := 0;
      while ptr + i < USER_PAGE_END
        invariant 0 <= i && (ptr < USER_PAGE_END ==> ptr + i <= USER_PAGE_END)
        invariant ptr < USER_PAGE_END ==> forall j :: ptr - USER_PAGE_START <= j < ptr - USER_PAGE_START + i ==> page[j] != 0
      {
        if page[ptr - USER_PAGE_START + i] == 0 {
          assert page[ptr - USER_PAGE_START..][i] == 0;
          return true;
        }
        i := i + 1;
      }
      return false;
    }

    /** init_file_obj and the open operation of the kind. */
    method InitObj(i: int, e: Dentry) returns (ok: bool)
      requires Ready() && 0 <= i < MAX_FILES && !files[i].valid
      modifies files
      ensures files[..] == old(files[..])[i := Fresh(old(files[i]), e)] && ok == files[i].valid
    {
      files[i] := files[i].(inode := 0, offset := 0);
      if e.kind == FTYPE_RTC {
        files[i] := files[i].(kind := Clock);
      } else if e.kind == FTYPE_DIR {
        files[i] := files[i].(kind := Directory);
      } else if e.kind == FTYPE_FILE {
        files[i] := files[i].(kind := Plain, inode := e.inode);
      } else if e.kind == FTYPE_MOUSE {
        files[i] := files[i].(kind := Mouse);
      } else {
        return false;
      }
      files[i] := files[i].(valid := true);
      if files[i].kind == Clock { files[i] := files[i].(offset := 2); }   // rtc_open
      return true;
    }

    ghost function NameAt(ptr: U32): Option<seq<Byte>>
      requires Ready()
      reads this, files, page
    {
      if USER_PAGE_START <= ptr < USER_PAGE_END && 0 in page[ptr - USER_PAGE_START..]
      then Some(page[ptr - USER_PAGE_START..]) else None
    }

    /** file_open. */
    method Open(img: Image, ptr: U32) returns (r: int)
      requires Ready() && ImageOk(img)
      modifies files
      ensures Ready() && Next(files[..], Reply(r, [])) == Step(img, old(files[..]), Call.Open(old(NameAt(ptr))))
    {
      var ok := IsReadableString(ptr);
      if !ok { return -1; }
      var i := 2;
      while i < MAX_FILES
        invariant 2 <= i <= MAX_FILES
        invariant FreeSlot(files[..], i) == FreeSlot(files[..], 2)
      {
        if !files[i].valid {
          var e := ReadDentryByName(img, page[ptr - USER_PAGE_START..]);
          if e == None { return -1; }
          ok := InitObj(i, e.value);
          return if ok then i else -1;
        }
        i := i + 1;
      }
      return -1;
    }

    /** file_close; the close operations of stdin and stdout fail, the others succeed. */
    method Close(img: Image, fd: int) returns (r: int)
      requires Ready() && ImageOk(img)
      modifies files
      ensures Ready() && Next(files[..], Reply(r, [])) == Step(img, old(files[..]), Call.Close(fd))
    {
      if fd < 0 || fd >= MAX_FILES { return -1; }
      if !files[fd].valid { return -1; }
      if files[fd].kind == Stdin || files[fd].kind == Stdout { return -1; }
      files[fd] := files[fd].(valid := false);
      return 0;
    }

    /** file_read of a plain file: fs_file_read. */
    method ReadFile(img: Image, fd: int, ptr: U32, nbytes: int) returns (r: int, ghost data: seq<Byte>)
      requires Ready() && ImageOk(img) && Valid(files[..], fd) && files[fd].kind == Plain
      modifies files, page
      ensures Ready() && Next(files[..], Reply(r, data)) == Step(img, old(files[..]), Call.Read(fd, ptr, nbytes))
      ensures Stored(old(page[..]), page[..], ptr, data)
    {
      if !UserRange(ptr, nbytes) { return -1, []; }
      UserRangeMeans(ptr, nbytes);
      var d := files[fd];
      ghost var s := Slice(img, d.inode, d.offset, nbytes);
      var count := ReadData(img, d.inode, d.offset, page, PAGE_SIZE, ptr - USER_PAGE_START, nbytes);
      assert count.Count?;       // the whole buffer is mapped
      r := count.n;
      files[fd] := d.(offset := Add32(d.offset, if r < 0 then r + WORD else r));
      data := if s.Bytes? then s.data else [];
    }

    /** file_read of a directory: fs_dir_read. */
    method ReadDir(img: Image, fd: int, ptr: U32, nbytes: int) returns (r: int, ghost data: seq<Byte>)
      requires Ready() && ImageOk(img) && Valid(files[..], fd) && files[fd].kind == Directory
      modifies files, page
      ensures Ready() && Next(files[..], Reply(r, data)) == Step(img, old(files[..]), Call.Read(fd, ptr, nbytes))
      ensures Stored(old(page[..]), page[..], ptr, data)
    {
      if !UserRange(ptr, nbytes) { return -1, []; }
      UserRangeMeans(ptr, nbytes);
      var d := files[fd];
      if d.offset >= img.count { return 0, []; }
      var e := img.dentries[d.offset];
      var n := if nbytes > MAX_NAME then MAX_NAME else nbytes;
      var i := CopyName(e.name, ptr - USER_PAGE_START, n);
      files[fd] := d.(offset := Add32(d.offset, 1));
      return i, CString(e.name)[..i];
    }

    /** The loop of fs_dir_read. */
    method CopyName(name: seq<Byte>, at: nat, n: nat) returns (i: int)
      requires n <= |name| && at + n <= page.Length
      modifies page
      ensures 0 <= i == Min(n, |CString(name)|) && at + i <= |old(page[..])|
      ensures page[..] == Write(old(page[..]), at, CString(name)[..i])
    {
      ghost var s := CString(name);
      i := 0;
      while i < n
        invariant 0 <= i <= n && i <= |s|
        invariant Filled(page[..], old(page[..]), at, s[..i])
      {
        var c := name[i];
        if c == 0 { break; }
        page[at + i] := c;
        i := i + 1;
      }
      FilledIsWrite(page[..], old(page[..]), at, s[..i]);
    }

    /** file_write of a clock: rtc_write. */
    method WriteRate(img: Image, fd: int, ptr: U32, nbytes: int) returns (r: int)
      requires Ready() && ImageOk(img) && Valid(files[..], fd) && files[fd].kind == Clock
      modifies files
      ensures Ready() && Next(files[..], Reply(r, [])) == Step(img, old(files[..]), SetRate(fd, nbytes, old(WordAt(ptr))))
    {
      if nbytes != 4 { return -1; }
      if !UserRange(ptr, 4) { return -1; }
      UserRangeMeans(ptr, 4);
      var freq := Word4(page[ptr - USER_PAGE_START..ptr - USER_PAGE_START + 4]);
      if !FreqOk(freq) { return -1; }
      files[fd] := files[fd].(offset := freq);
      return 0;
    }

    ghost function WordAt(ptr: U32): Option<U32>
      requires Ready()
      reads this, files, page
    {
      UserRangeMeans(ptr, 4);
      if UserRange(ptr, 4) then Some(Word4(page[ptr - USER_PAGE_START..ptr - USER_PAGE_START + 4])) else None
    }
  }
}
