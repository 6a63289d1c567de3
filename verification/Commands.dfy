/** Command lines: process_parse_cmd and process_getargs in process.c. */
module Commands {
  import opened Machine
  import opened UserMemory
  import opened FileSystem

  const MAX_ARGS := 1024
  const BLANK: Byte := 0x20
  const EXE_MAGIC: U32 := 0x464c457f

  // ---------------------------------------------------------------- what a command line means

  datatype Command = Command(name: seq<Byte>, args: seq<Byte>)

  function Strip(t: seq<Byte>): (r: seq<Byte>)
    ensures |r| <= |t|
  {
    if t != [] && t[0] == BLANK then Strip(t[1..]) else t
  }

  function FirstWord(t: seq<Byte>): (r: seq<Byte>)
    ensures |r| <= |t| && r == t[..|r|] && BLANK !in r
    ensures |r| < |t| ==> t[|r|] == BLANK
  {
    if t == [] || t[0] == BLANK then [] else [t[0]] + FirstWord(t[1..])
  }

  /** The text before the NUL, cut into a name and the rest. */
  function Cut(t: seq<Byte>): Command {
    var u := Strip(t);
    var name := FirstWord(u);
    Command(name, Strip(u[|name|..]))
  }

  predicate Acceptable(c: Command) { |c.name| <= MAX_NAME && |c.args| < MAX_ARGS }

  function Parse(t: seq<Byte>): Option<Command> {
    if Acceptable(Cut(t)) then Some(Cut(t)) else None
  }

  function Blanks(n: nat): (r: seq<Byte>)
    ensures |r| == n
  {
    seq(n, _ => BLANK)
  }

  function Spelled(before: nat, c: Command, between: nat): seq<Byte> {
    Blanks(before) + (c.name + (Blanks(between) + c.args))
  }

  /** A name and arguments that can be told apart on a command line. */
  predicate Separable(c: Command, between: nat) {
    && BLANK !in c.name
    && (c.name == [] ==> between == 0 && c.args == [])
    && (c.args != [] ==> c.args[0] != BLANK && between > 0)
  }

  lemma {:induction false} StripBlanks(n: nat, t: seq<Byte>)
    requires t == [] || t[0] != BLANK
    ensures Strip(Blanks(n) + t) == t
  {
    if n > 0 {
      assert (Blanks(n) + t)[1..] == Blanks(n - 1) + t;
      StripBlanks(n - 1, t);
    } else {
      assert Blanks(0) + t == t;
    }
  }

  lemma {:induction false} WordFirst(w: seq<Byte>, t: seq<Byte>)
    requires BLANK !in w && (t == [] || t[0] == BLANK)
    ensures FirstWord(w + t) == w
  {
    if w != [] {
      assert (w + t)[1..] == w[1..] + t;
      WordFirst(w[1..], t);
    } else {
      assert w + t == t;
    }
  }

  lemma CutSpelled(before: nat, c: Command, between: nat, tail: seq<Byte>)
    requires Separable(c, between) && tail == Blanks(between) + c.args
    ensures Cut(Blanks(before) + (c.name + tail)) == c
  {
    assert c.name == [] ==> tail == [];
    assert tail == [] || tail[0] == BLANK;
    StripBlanks(before, c.name + tail);
    WordFirst(c.name, tail);
    assert (c.name + tail)[|c.name|..] == tail;
    StripBlanks(between, c.args);
  }

  /** Parsing recovers the name and the arguments of every command line, and refuses exactly the
      ones with an over-long name or over-long arguments. */
  lemma ParseSpelled(before: nat, c: Command, between: nat)
    requires Separable(c, between)
    ensures Parse(Spelled(before, c, between)) == if |c.name| <= 32 && |c.args| <= 1023 then Some(c) else None
  {
    CutSpelled(before, c, between, Blanks(between) + c.args);
  }

  /** The blanks before the name, and between the name and the arguments. */
  function Before(t: seq<Byte>): nat { |t| - |Strip(t)| }

  function Between(t: seq<Byte>): nat { |Strip(t)| - |Cut(t).name| - |Cut(t).args| }

  /** Only leading blanks are gone, and all of them. */
  lemma {:induction false} StripParts(t: seq<Byte>, r: seq<Byte>)
    requires r == Strip(t)
    ensures t == Blanks(|t| - |r|) + r && (r != [] ==> r[0] != BLANK)
  {
    if t != [] && t[0] == BLANK {
      StripParts(t[1..], r);
      OneMoreBlank(t, t[1..], r, |t| - |r|);
    } else {
      assert Blanks(0) + t == t;
    }
  }

  lemma OneMoreBlank(t: seq<Byte>, u: seq<Byte>, r: seq<Byte>, k: nat)
    requires t != [] && t[0] == BLANK && u == t[1..] && k > 0 && u == Blanks(k - 1) + r
    ensures t == Blanks(k) + r
  {
    assert t == [BLANK] + u;
    assert Blanks(k) == [BLANK] + Blanks(k - 1);
  }

  lemma SplitAt(u: seq<Byte>, k: nat)
    requires k <= |u|
    ensures u == u[..k] + u[k..]
  {
  }

  lemma {:induction false} CutSeparates(t: seq<Byte>)
    ensures Separable(Cut(t), Between(t))
  {
    var u := Strip(t);
    var name := FirstWord(u);
    var rest := u[|name|..];
    assert rest != [] ==> rest[0] == BLANK;
    StripParts(t, u);
    StripParts(rest, Strip(rest));
  }

  /** And every text is such a command line. */
  lemma {:induction false} EveryTextIsSpelled(t: seq<Byte>)
    ensures Separable(Cut(t), Between(t)) && t == Spelled(Before(t), Cut(t), Between(t))
  {
    CutSeparates(t);
    StripParts(t, Strip(t));
    RestParts(Strip(t), Cut(t).name, Cut(t).args);
  }

  lemma {:induction false} RestParts(u: seq<Byte>, name: seq<Byte>, args: seq<Byte>)
    requires |name| <= |u| && name == u[..|name|] && args == Strip(u[|name|..])
    ensures u == name + (Blanks(|u| - |name| - |args|) + args)
  {
    var rest := u[|name|..];
    assert rest == Blanks(|u| - |name| - |args|) + args by { StripParts(rest, args); }
    assert u == name + rest by { SplitAt(u, |name|); }
  }

  // ---------------------------------------------------------------- process_parse_cmd

  lemma StripNext(t: seq<Byte>, i: nat)
    requires i <= |t|
    ensures Strip(t[i..]) == if i < |t| && t[i] == BLANK then Strip(t[i + 1..]) else t[i..]
  {
    if i < |t| { assert t[i..][0] == t[i] && t[i..][1..] == t[i + 1..]; }
  }

  /** Skips blanks from index i on. */
  method SkipBlanks(s: seq<Byte>, from: nat, ghost rest: seq<Byte>) returns (i: nat)
    requires from <= |CString(s)| < |s| && rest == CString(s)[from..]
    ensures from <= i <= |CString(s)| && CString(s)[i..] == Strip(rest)
  {
    ghost var t := CString(s);
    ghost var u := Strip(rest);
    CStringAt(s, from);
    i := from;
    while s[i] == BLANK
      invariant from <= i <= |t| && Strip(t[i..]) == u
      invariant s[i] == if i < |t| then t[i] else 0
      decreases |t| - i
    {
      StripNext(t, i);
      i := i + 1;
      CStringAt(s, i);
    }
    StripNext(t, i);
  }

  lemma CStringAt(s: seq<Byte>, i: nat)
    requires i <= |CString(s)| < |s|
    ensures s[i] == if i < |CString(s)| then CString(s)[i] else 0
    ensures i < |CString(s)| ==> s[i] != 0
  {
    assert i < |CString(s)| ==> CString(s)[i] in CString(s);
  }

  lemma WordNext(u: seq<Byte>, n: nat)
    requires n <= |FirstWord(u)|
    ensures n < |FirstWord(u)| <==> n < |u| && u[n] != BLANK
  {
    assert n < |FirstWord(u)| ==> FirstWord(u)[n] in FirstWord(u);
  }

  /** Reads a name of at most 32 characters; -1 if it is longer. */
  method ReadName(s: seq<Byte>, from: nat, filename: array<Byte>, ghost rest: seq<Byte>) returns (i: nat, n: int)
    requires from <= |CString(s)| < |s| && rest == CString(s)[from..] && filename.Length == MAX_NAME + 1
    modifies filename
    ensures if |FirstWord(rest)| <= MAX_NAME then n == |FirstWord(rest)| else n == -1
    ensures n >= 0 ==> i <= |CString(s)| && CString(s)[i..] == rest[n..] && CString(filename[..]) == FirstWord(rest)
  {
    ghost var w := FirstWord(rest);
    i := from;
    n := 0;
    while n < MAX_NAME + 1
      invariant 0 <= n <= MAX_NAME + 1 && n <= |w| && i == from + n
      invariant filename[..n] == w[..n]
    {
      CStringAt(s, i);
      WordNext(rest, n);
      var c := s[i];
      if c == BLANK || c == 0 {
        filename[n] := 0;
        Suffix(CString(s), from, n);
        NameIs(filename[..], rest, n);
        return;
      }
      filename[n] := c;
      i := i + 1;
      n := n + 1;
    }
    n := -1;
  }

  /** Copies the arguments with their NUL; false if they do not fit. */
  method ReadArgs(s: seq<Byte>, from: nat, out: array<Byte>) returns (ok: bool)
    requires from <= |CString(s)| < |s| && out.Length == MAX_ARGS
    modifies out
    ensures ok <==> |CString(s)[from..]| < MAX_ARGS
    ensures ok ==> CString(out[..]) == CString(s)[from..]
  {
    ghost var t := CString(s);
    var n := 0;
    while n < MAX_ARGS
      invariant 0 <= n <= MAX_ARGS && n <= |t| - from
      invariant out[..n] == t[from..from + n]
    {
      out[n] := s[from + n];
      if out[n] == 0 {
        assert from + n == |t|;
        assert out[..n] == t[from..];
        CStringUnique(out[..], n);
        return true;
      }
      n := n + 1;
    }
    return false;
  }

  /** The inode of an executable file. */
  ghost function Executable(img: Image, name: seq<Byte>): Option<U32>
    requires ImageOk(img)
  {
    match Lookup(img, name + [0])
    case None => None
    case Some(e) =>
      if && e.kind == FTYPE_FILE && e.inode < |img.inodes|
         && |Content(img, e.inode)| >= 4 && Word4(Content(img, e.inode)[..4]) == EXE_MAGIC
      then Some(e.inode) else None
  }

  /** Exactly the first entry of that name counts, and it must be a plain file whose contents begin
      with 7F 45 4C 46. */
  lemma ExecutableMeans(img: Image, name: seq<Byte>, i: int)
    requires ImageOk(img) && 0 !in name
    requires 0 <= i < img.count && CString(img.dentries[i].name) == name
    requires forall j :: 0 <= j < i ==> CString(img.dentries[j].name) != name
    ensures var e := img.dentries[i];
            && (e.kind == 2 && e.inode < |img.inodes| && [0x7F, 0x45, 0x4C, 0x46] <= Content(img, e.inode)
                ==> Executable(img, name) == Some(e.inode))
            && (!(e.kind == 2 && e.inode < |img.inodes| && [0x7F, 0x45, 0x4C, 0x46] <= Content(img, e.inode))
                ==> Executable(img, name) == None)
  {
    assert (name + [0])[..|name|] == name;
    CStringUnique(name + [0], |name|);
    LookupMeans(img, name + [0]);
    var e := img.dentries[i];
    if e.inode < |img.inodes| && |Content(img, e.inode)| >= 4 { MagicBytes(Content(img, e.inode)); }
  }

  lemma MagicBytes(file: seq<Byte>)
    requires |file| >= 4
    ensures Word4(file[..4]) == EXE_MAGIC <==> [0x7F, 0x45, 0x4C, 0x46] <= file
  {
    var b0: int, b1: int, b2: int, b3: int := file[0], file[1], file[2], file[3];
    assert Word4(file[..4]) == b0 + 0x100 * b1 + 0x1_0000 * b2 + 0x100_0000 * b3;
  }

  /** A name no entry has is not executable. */
  lemma UnknownCommand(img: Image, name: seq<Byte>)
    requires ImageOk(img) && 0 !in name
    requires forall i :: 0 <= i < img.count ==> CString(img.dentries[i].name) != name
    ensures Executable(img, name) == None
  {
    assert (name + [0])[..|name|] == name;
    CStringUnique(name + [0], |name|);
    LookupMeans(img, name + [0]);
  }

  /** The file is there, is a file, and starts with the magic number. */
  method FindExecutable(img: Image, filename: seq<Byte>) returns (r: Option<U32>)
    requires ImageOk(img) && 0 in filename
    ensures r == Executable(img, CString(filename))
  {
    ghost var name := CString(filename);
    CStringUnique(name + [0], |name|);
    assert (name + [0])[..|name|] == name;
    var e := ReadDentryByName(img, filename);
    if e == None { return None; }
    if e.value.kind != FTYPE_FILE { return None; }
    var magic := new Byte[4](i => 0);
    var n := ReadData(img, e.value.inode, 0, magic, 4, 0, 4);
    if n != Count(4) { return None; }
    assert magic[..] == Content(img, e.value.inode)[..4];
    if Word4(magic[..]) != EXE_MAGIC { return None; }
    return Some(e.value.inode);
  }

  /** process_parse_cmd up to the end of the name. */
  method SplitName(s: seq<Byte>, filename: array<Byte>) returns (ok: bool, i: nat)
    requires 0 in s && filename.Length == MAX_NAME + 1
    modifies filename
    ensures ok <==> |Cut(CString(s)).name| <= MAX_NAME
    ensures ok ==> CString(filename[..]) == Cut(CString(s)).name
    ensures ok ==> i <= |CString(s)| && Strip(CString(s)[i..]) == Cut(CString(s)).args
  {
    i := SkipBlanks(s, 0, CString(s));
    var n;
    i, n := ReadName(s, i, filename, Strip(CString(s)));
    ok := n >= 0;
  }

  lemma Suffix(t: seq<Byte>, a: nat, b: nat)
    requires a + b <= |t|
    ensures t[a..][b..] == t[a + b..]
  {
  }

  /** The two scans of process_parse_cmd over the name and the arguments. */
  method SplitCmd(s: seq<Byte>, filename: array<Byte>, out: array<Byte>) returns (ok: bool)
    requires 0 in s && filename.Length == MAX_NAME + 1 && out.Length == MAX_ARGS && filename != out
    modifies filename, out
    ensures ok <==> Parse(CString(s)).Some?
    ensures ok ==> var c := Parse(CString(s)).value;
                   CString(filename[..]) == c.name && CString(out[..]) == c.args
  {
    var i;
    ok, i := SplitName(s, filename);
    if ok {
      i := SkipBlanks(s, i, CString(s)[i..]);
      ok := ReadArgs(s, i, out);
    }
  }

  lemma NameIs(f: seq<Byte>, u: seq<Byte>, n: nat)
    requires n < |f| && n <= |u| && 0 !in u && f[..n] == u[..n] && f[n] == 0
    ensures CString(f) == u[..n]
  {
    assert 0 !in u[..n];
    CStringUnique(f, n);
  }

  /** process_parse_cmd. */
  method ParseCmd(img: Image, s: seq<Byte>, out: array<Byte>) returns (inode: Option<U32>)
    requires ImageOk(img) && 0 in s && out.Length == MAX_ARGS
    modifies out
    ensures inode == match Parse(CString(s)) { case None => None case Some(c) => Executable(img, c.name) }
    ensures inode.Some? ==> CString(out[..]) == Parse(CString(s)).value.args && |CString(out[..])| < MAX_ARGS
  {
    var filename := new Byte[MAX_NAME + 1](_ => 0);
    var ok := SplitCmd(s, filename, out);
    if !ok { return None; }
    assert 0 in filename[..] by { assert filename[..][|CString(filename[..])|] == 0; }
    inode := FindExecutable(img, filename[..]);
  }

  // ---------------------------------------------------------------- process_getargs

  /** What strncpy leaves in the first n bytes of its destination. */
  function Padded(src: seq<Byte>, n: nat): (r: seq<Byte>)
    ensures |r| == n
  {
    seq(n, i => if 0 <= i < |CString(src)| then src[i] else 0)
  }

  /** strncpy. */
  method StrNCpy(dest: array<Byte>, at: nat, src: seq<Byte>, n: nat)
    requires 0 in src && at + n <= dest.Length
    modifies dest
    ensures dest[..] == Write(old(dest[..]), at, Padded(src, n))
  {
    ghost var s, p := CString(src), Padded(src, n);
    assert |s| < |src|;
    var i := 0;
    while src[i] != 0 && i < n
      invariant 0 <= i <= n && i <= |s|
      invariant Filled(dest[..], old(dest[..]), at, p[..i])
      decreases n - i
    {
      dest[at + i] := src[i];
      i := i + 1;
    }
    while i < n
      invariant 0 <= i <= n && (i < n ==> |s| <= i)
      invariant Filled(dest[..], old(dest[..]), at, p[..i])
    {
      dest[at + i] := 0;
      i := i + 1;
    }
    assert p[..n] == p;
    FilledIsWrite(dest[..], old(dest[..]), at, p);
  }

  /** What process_getargs leaves in a buffer of n bytes. */
  function ArgBytes(args: seq<Byte>, n: nat): (r: seq<Byte>)
    ensures |r| == n
  {
    if n == 0 then [] else Padded(args, n)[n - 1 := 0]
  }

  /** process_getargs. */
  method GetArgs(args: seq<Byte>, page: array<Byte>, ptr: U32, nbytes: int) returns (r: int)
    requires |args| == MAX_ARGS && 0 in args && page.Length == PAGE_SIZE
    modifies page
    ensures r == if UserRange(ptr, nbytes) then 0 else -1
    ensures r == -1 ==> page[..] == old(page[..])
    ensures r == 0 ==> var at, n := ptr - USER_PAGE_START, Min(nbytes, MAX_ARGS);
                       0 <= at && 0 <= n && at + n <= |old(page[..])| && page[..] == Write(old(page[..]), at, ArgBytes(args, n))
  {
    if !UserRange(ptr, nbytes) { return -1; }
    UserRangeMeans(ptr, nbytes);
    var n := if nbytes > MAX_ARGS then MAX_ARGS else nbytes;
    var at := ptr - USER_PAGE_START;
    StrNCpy(page, at, args, n);
    if n > 0 { page[at + n - 1] := 0; }
    return 0;
  }

  /** A caller always gets a C string: the arguments, or as much of them as fits with the NUL. */
  lemma ArgBytesAre(args: seq<Byte>, n: nat)
    requires n > 0
    ensures CString(ArgBytes(args, n)) == CString(args)[..Min(|CString(args)|, n - 1)]
  {
    var s, k := CString(args), Min(|CString(args)|, n - 1);
    var b := ArgBytes(args, n);
    assert b[..k] == s[..k];
    assert 0 !in s[..k];
    CStringUnique(b, k);
  }

  lemma PaddedKeeps(src: seq<Byte>, n: nat)
    requires |CString(src)| < n
    ensures CString(Padded(src, n)) == CString(src)
  {
    var s, p := CString(src), Padded(src, n);
    assert p[..|s|] == s;
    CStringUnique(p, |s|);
  }

  /** From the parent's command line to the program's buffer: as process_parse_cmd wrote them and
      strncpy kept them in the PCB, the arguments arrive unchanged in any buffer that can hold them. */
  lemma {:induction false} ArgsArrive(text: seq<Byte>, out: seq<Byte>, n: nat)
    requires Parse(text).Some? && CString(out) == Parse(text).value.args && |CString(out)| < n
    ensures CString(ArgBytes(Padded(out, MAX_ARGS), n)) == Parse(text).value.args
  {
    PaddedKeeps(out, MAX_ARGS);
    ArgBytesAre(Padded(out, MAX_ARGS), n);
    assert CString(out)[..|CString(out)|] == CString(out);
  }
}
