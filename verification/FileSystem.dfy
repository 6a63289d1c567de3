/** The read-only filesystem image (filesys.c). */
module FileSystem {
  import opened Machine
  import opened UserMemory

  const BLOCK := 4096
  const MAX_BLOCKS := 1023
  const MAX_NAME := 32
  const MAX_DENTRIES := 63
  const FTYPE_RTC: U32 := 0
  const FTYPE_DIR: U32 := 1
  const FTYPE_FILE: U32 := 2
  const FTYPE_MOUSE: U32 := 3

  datatype Inode = Inode(size: U32, blocks: seq<U32>)

  datatype Dentry = Dentry(name: seq<Byte>, kind: U32, inode: U32)

  /** The boot block, the inode blocks and the data blocks. */
  datatype Image = Image(count: U32, dentries: seq<Dentry>, inodes: seq<Inode>, data: seq<seq<Byte>>)

  ghost predicate InodeOk(img: Image, ino: Inode) {
    && ino.size <= MAX_BLOCKS * BLOCK && |ino.blocks| == MAX_BLOCKS
    && forall i :: 0 <= i < MAX_BLOCKS && i * BLOCK < ino.size ==> ino.blocks[i] < |img.data|
  }

  ghost predicate ImageOk(img: Image) {
    && img.count <= |img.dentries| == MAX_DENTRIES && |img.inodes| < WORD
    && (forall i :: 0 <= i < MAX_DENTRIES ==> |img.dentries[i].name| == MAX_NAME)
    && (forall i :: 0 <= i < |img.inodes| ==> InodeOk(img, img.inodes[i]))
    && (forall i :: 0 <= i < |img.data| ==> |img.data[i]| == BLOCK)
  }

  // ---------------------------------------------------------------- contents

  ghost function ByteAt(img: Image, ino: Inode, i: int): Byte
    requires ImageOk(img) && InodeOk(img, ino) && 0 <= i < ino.size
  {
    img.data[ino.blocks[i / BLOCK]][i % BLOCK]
  }

  /** The file as one flat string of bytes. */
  ghost function Content(img: Image, n: int): (r: seq<Byte>)
    requires ImageOk(img) && 0 <= n < |img.inodes|
    ensures |r| == img.inodes[n].size
  {
    var ino := img.inodes[n];
    seq(ino.size, i requires 0 <= i < ino.size => ByteAt(img, ino, i))
  }

  function Min(a: int, b: int): int { if a < b then a else b }

  datatype Outcome = Failed | Bytes(data: seq<Byte>)

  /** What read_data promises. */
  ghost function Slice(img: Image, n: U32, offset: U32, length: U32): (r: Outcome)
    requires ImageOk(img)
    ensures r.Bytes? ==> |r.data| <= length
  {
    if n >= |img.inodes| || offset > img.inodes[n].size then Failed
    else Bytes(Content(img, n)[offset..Min(offset + length, img.inodes[n].size)])
  }

  /** A piece of one block is a piece of the file. */
  lemma BlockSlice(img: Image, n: int, b: int, from: int, to: int, pos: int)
    requires ImageOk(img) && 0 <= n < |img.inodes|
    requires 0 <= b && 0 <= from < to <= BLOCK && pos == b * BLOCK + from && pos + to - from <= img.inodes[n].size
    ensures b < MAX_BLOCKS && |img.inodes[n].blocks| == MAX_BLOCKS && img.inodes[n].blocks[b] < |img.data|
    ensures |img.data[img.inodes[n].blocks[b]]| == BLOCK
    ensures img.data[img.inodes[n].blocks[b]][from..to] == Content(img, n)[pos..pos + to - from]
  {
    assert InodeOk(img, img.inodes[n]);
    var ino := img.inodes[n];
    forall i | from <= i < to ensures img.data[ino.blocks[b]][i] == Content(img, n)[b * BLOCK + i] {
      assert (b * BLOCK + i) / BLOCK == b && (b * BLOCK + i) % BLOCK == i;
    }
  }

  /** b is m with bytes written at index base. */
  ghost predicate Filled(b: seq<Byte>, m: seq<Byte>, base: nat, bytes: seq<Byte>) {
    && base + |bytes| <= |b| == |m|
    && forall j :: 0 <= j < |b| ==> b[j] == if base <= j < base + |bytes| then bytes[j - base] else m[j]
  }

  lemma FilledIsWrite(b: seq<Byte>, m: seq<Byte>, base: nat, bytes: seq<Byte>)
    requires Filled(b, m, base, bytes)
    ensures b == Write(m, base, bytes)
  {
  }

  /** The block a position is in, and where in it. */
  method Locate(pos: U32) returns (block: U32, within: U32)
    ensures pos == block * BLOCK + within && within < BLOCK
  {
    block, within := pos / BLOCK, pos % BLOCK;
  }

  /** memcpy of the next piece, to where the last one ended.  The store to index limit, where nothing
      is mapped, faults. */
  method Append(buf: array<Byte>, limit: nat, at: nat, piece: seq<Byte>,
                ghost m: seq<Byte>, ghost base: nat, ghost before: seq<Byte>) returns (ok: bool)
    requires at == base + |before| && at <= limit <= buf.Length
    requires Filled(buf[..], m, base, before)
    modifies buf
    ensures ok <==> at + |piece| <= limit
    ensures Filled(buf[..], m, base, before + piece[..if ok then |piece| else limit - at])
  {
    var i := 0;
    while i < |piece|
      invariant 0 <= i <= |piece| && at + i <= limit
      invariant Filled(buf[..], m, base, before + piece[..i])
    {
      if at + i == limit { return false; }
      buf[at + i] := piece[i];
      i := i + 1;
    }
    return true;
  }

  /** The part of one block that a read asks for. */
  method CopyPiece(img: Image, n: nat, b: nat, start: nat, end: nat, buf: array<Byte>, limit: nat, at: nat,
                   ghost m: seq<Byte>, ghost base: nat, ghost from: nat, ghost done: nat) returns (ok: bool)
    requires ImageOk(img) && n < |img.inodes|
    requires start < end <= BLOCK && done == b * BLOCK + start && done + end - start <= img.inodes[n].size
    requires from <= done && at == base + done - from && at <= limit <= buf.Length
    requires Filled(buf[..], m, base, Content(img, n)[from..done])
    modifies buf
    ensures ok <==> at + end - start <= limit
    ensures ok ==> Filled(buf[..], m, base, Content(img, n)[from..done + end - start])
    ensures !ok ==> Filled(buf[..], m, base, Content(img, n)[from..done + limit - at])
  {
    BlockSlice(img, n, b, start, end, done);
    ghost var file := Content(img, n);
    ok := Append(buf, limit, at, img.data[img.inodes[n].blocks[b]][start..end], m, base, file[from..done]);
    JoinedPiece(file, from, done, end - start, if ok then end - start else limit - at);
  }

  lemma JoinedPiece(file: seq<Byte>, from: nat, done: nat, n: nat, k: nat)
    requires from <= done && done + n <= |file| && k <= n
    ensures file[from..done] + file[done..done + n][..k] == file[from..done + k]
  {
  }

  /** The loop of read_data; false if a store faulted. */
  method CopyBlocks(img: Image, n: nat, offset: U32, len: U32, buf: array<Byte>, limit: nat, at: nat) returns (ok: bool)
    requires ImageOk(img) && n < |img.inodes| && offset + len <= img.inodes[n].size && at <= limit <= buf.Length
    modifies buf
    ensures ok <==> at + len <= limit
    ensures ok ==> buf[..] == Write(old(buf[..]), at, Content(img, n)[offset..offset + len])
    ensures !ok ==> buf[..] == Write(old(buf[..]), at, Content(img, n)[offset..offset + limit - at])
  {
    var first, firstOffset := Locate(offset);
    var last, lastOffset := Locate(offset + len);
    ghost var file, m := Content(img, n), buf[..];
    ghost var done: int := offset;
    var at' := at;
    var i := first;
    while i <= last
      invariant first <= i <= last + 1
      invariant done == if i > last then offset + len else if i == first then offset else i * BLOCK
      invariant offset <= done <= offset + len && at' == at + done - offset <= limit
      invariant Filled(buf[..], m, at, file[offset..done])
    {
      var start := if i == first then firstOffset else 0;
      var end := if i == last then lastOffset else BLOCK;
      var count := end - start;
      if count > 0 {
        ok := CopyPiece(img, n, i, start, end, buf, limit, at', m, at, offset, done);
        if !ok {
          FilledIsWrite(buf[..], m, at, file[offset..offset + limit - at]);
          return;
        }
        at' := at' + count;
      }
      done := done + count;
      i := i + 1;
    }
    FilledIsWrite(buf[..], m, at, file[offset..offset + len]);
    return true;
  }

  datatype ReadResult = Count(n: int) | Fault

  /** How the bytes of a slice get into the memory from index at on, if index limit is the first that
      is not mapped. */
  ghost predicate ReadAs(o: Outcome, limit: nat, at: nat, m: seq<Byte>, m': seq<Byte>, r: ReadResult) {
    match o
    case Failed => r == Count(-1) && m' == m
    case Bytes(data) =>
      && at <= limit <= |m|
      && if at + |data| <= limit then r == Count(|data|) && m' == Write(m, at, data)
         else r == Fault && m' == Write(m, at, data[..limit - at])
  }

  /** read_data into the memory from index at on, where index limit is the first that is not mapped. */
  method ReadData(img: Image, n: U32, offset: U32, buf: array<Byte>, limit: nat, at: nat, length: U32) returns (r: ReadResult)
    requires ImageOk(img) && at <= limit <= buf.Length
    modifies buf
    ensures ReadAs(Slice(img, n, offset, length), limit, at, old(buf[..]), buf[..], r)
  {
    if n >= |img.inodes| { return Count(-1); }
    if offset > img.inodes[n].size { return Count(-1); }
    var len := length;
    if len > img.inodes[n].size - offset { len := img.inodes[n].size - offset; }
    var ok := CopyBlocks(img, n, offset, len, buf, limit, at);
    if !ok {
      assert Content(img, n)[offset..offset + limit - at] == Content(img, n)[offset..offset + len][..limit - at];
      return Fault;
    }
    return Count(len);
  }

  // ---------------------------------------------------------------- names

  /** A C string: what comes before the first NUL, all of it if there is none. */
  function CString(s: seq<Byte>): (r: seq<Byte>)
    ensures |r| <= |s| && r == s[..|r|] && 0 !in r
    ensures |r| < |s| ==> s[|r|] == 0
  {
    if s == [] || s[0] == 0 then [] else [s[0]] + CString(s[1..])
  }

  lemma CStringUnique(s: seq<Byte>, k: nat)
    requires k <= |s| && 0 !in s[..k] && (k == |s| || s[k] == 0)
    ensures CString(s) == s[..k]
  {
    if k > 0 {
      assert s[..k][0] == s[0] && s[..k][1..] == s[1..][..k - 1];
      CStringUnique(s[1..], k - 1);
    }
  }

  /** fs_cmp_name: zero exactly for equal names, a 32-byte name having no NUL. */
  method CmpName(search: seq<Byte>, file: seq<Byte>) returns (r: int)
    requires |file| == MAX_NAME && 0 in search
    ensures r == 0 <==> CString(search) == CString(file)
  {
    var s, f := CString(search), CString(file);
    assert |s| < |search|;
    var i := 0;
    while i < MAX_NAME
      invariant 0 <= i <= MAX_NAME && i <= |s| && i <= |f|
      invariant search[..i] == file[..i]
    {
      if search[i] != file[i] || file[i] == 0 {
        if search[i] == file[i] {
          CStringUnique(search, i);
          CStringUnique(file, i);
        }
        var x: int, y: int := search[i], file[i];
        return x - y;
      }
      assert i < |f|;
      assert i < |s|;
      i := i + 1;
    }
    assert f == file[..MAX_NAME];
    if search[MAX_NAME] == 0 { CStringUnique(search, MAX_NAME); }
    return search[MAX_NAME];
  }

  /** The first entry of that name, or count. */
  function Find(img: Image, name: seq<Byte>, i: nat): (r: nat)
    requires i <= img.count <= |img.dentries|
    ensures i <= r <= img.count
    ensures r < img.count ==> CString(img.dentries[r].name) == name
    ensures forall j :: i <= j < r ==> CString(img.dentries[j].name) != name
    decreases img.count - i
  {
    if i == img.count || CString(img.dentries[i].name) == name then i else Find(img, name, i + 1)
  }

  datatype Option<T> = None | Some(value: T)

  function Lookup(img: Image, search: seq<Byte>): Option<Dentry>
    requires img.count <= |img.dentries|
  {
    var i := Find(img, CString(search), 0);
    if i < img.count then Some(img.dentries[i]) else None
  }

  /** A name is found exactly when some entry has it, and then the first such entry is. */
  lemma LookupMeans(img: Image, s: seq<Byte>)
    requires img.count <= |img.dentries|
    ensures Lookup(img, s) == None <==> forall i :: 0 <= i < img.count ==> CString(img.dentries[i].name) != CString(s)
    ensures forall i :: 0 <= i < img.count && CString(img.dentries[i].name) == CString(s)
                        && (forall j :: 0 <= j < i ==> CString(img.dentries[j].name) != CString(s))
                        ==> Lookup(img, s) == Some(img.dentries[i])
  {
  }

  /** read_dentry_by_name. */
  method ReadDentryByName(img: Image, search: seq<Byte>) returns (r: Option<Dentry>)
    requires ImageOk(img) && 0 in search
    ensures r == Lookup(img, search)
  {
    var i := 0;
    while i < img.count
      invariant 0 <= i <= img.count
      invariant Find(img, CString(search), i) == Find(img, CString(search), 0)
    {
      var c := CmpName(search, img.dentries[i].name);
      if c == 0 { return Some(img.dentries[i]); }
      i := i + 1;
    }
    return None;
  }

  /** The name of an entry, as fs_dir_read spells it out, leads back to that entry exactly when no
      earlier entry has the same name; a name of 32 bytes without NUL is no exception. */
  lemma NameRoundTrip(img: Image, i: int)
    requires ImageOk(img) && 0 <= i < img.count
    ensures Find(img, CString(CString(img.dentries[i].name) + [0]), 0) == i
       <==> forall j :: 0 <= j < i ==> CString(img.dentries[j].name) != CString(img.dentries[i].name)
  {
    var name := CString(img.dentries[i].name);
    CStringUnique(name + [0], |name|);
    assert (name + [0])[..|name|] == name;
    var r := Find(img, name, 0);
    assert r <= i;
  }

  /** With distinct names, every listed name opens its own entry. */
  lemma DistinctNamesRoundTrip(img: Image, i: int)
    requires ImageOk(img) && 0 <= i < img.count
    requires forall j, k :: 0 <= j < k < img.count ==> CString(img.dentries[j].name) != CString(img.dentries[k].name)
    ensures Lookup(img, CString(img.dentries[i].name) + [0]) == Some(img.dentries[i])
  {
    NameRoundTrip(img, i);
  }
}
