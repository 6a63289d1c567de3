/** The process table and the screens together: what a program stores through its vidmap page. */
module Vidmap {
  import opened Machine
  import opened Refinement
  import opened KernelTheorems
  import opened Screen
  import opened Terminals
  import T = TerminalTheorems
  import E = Events
  import K = Kernel
  import S = Sessions

  datatype Act =
    | Kernel(e: E.Event)                  // any event of the kernel machine; SetDisplay also swaps the screens
    | Output(cs: seq<Byte>)               // stdout_write by the process on the processor
    | UserStore(off: int, b: Byte)        // its store to VIDMAP_PAGE_START + off
    | Input(d: Event)                     // the keyboard and reads of it

  predicate IsInput(d: Event) { d.Typed? || d.Clear? || d.Taken? || d.Emptied? }

  predicate InUser(s: K.State) { s.cpu.User? && 0 <= s.cpu.who < |s.procs| }

  /** The terminal of the process on the processor. */
  function Own(s: K.State): int
    requires InUser(s)
  {
    s.procs[s.cpu.who].terminal
  }

  /** The act changes the display. */
  predicate Shows(s: K.State, e: Act) { e.Kernel? && e.e.SetDisplay? && K.Enabled(s, e.e) }

  // ---------------------------------------------------------------- what the machine does

  /** Where a page-table entry points. */
  function PageAt(m: E.VideoMem): int {
    match m
    case Vga => VGA
    case Backing(t) => BackingPage(t)
  }

  /** A store goes where the page-table entry says; without an entry it does not go anywhere. */
  function Stored(s: K.State, v: Video, off: int, b: Byte): Video {
    var at := PageAt(s.vid.target) + off;
    if s.cpu.User? && s.vid.present && 0 <= off < VIDEO_PAGE && 0 <= at < |v.mem| then v.(mem := v.mem[at := b]) else v
  }

  ghost function StepVideo(s: K.State, v: Video, e: Act): Video {
    if !VideoOk(v) then v
    else
      match e
      case Kernel(k) => if Shows(s, e) then Step(v, SetDisplay(k.term)) else v
      case Output(cs) => if InUser(s) then Step(v, Print(Own(s), cs)) else v
      case UserStore(off, b) => Stored(s, v, off, b)
      case Input(d) => if IsInput(d) then Step(v, d) else v
  }

  function StepTable(s: K.State, e: Act): (r: K.State)
    requires K.Sized(s)
    ensures K.Sized(r)
  {
    if e.Kernel? then K.Step(s, e.e).s else s
  }

  ghost function VideoAfter(s: K.State, v: Video, es: seq<Act>): Video
    requires K.Sized(s)
    decreases |es|
  {
    if es == [] then v else VideoAfter(StepTable(s, es[0]), StepVideo(s, v, es[0]), es[1..])
  }

  // ---------------------------------------------------------------- what it should mean

  /** Output and stores act on the terminal of the process, and a store counts if that process has
      called vidmap.  No page-table entry is looked at. */
  function Meaning(s: K.State, e: Act): (ds: seq<Event>)
    ensures |ds| <= 1
  {
    match e
    case Kernel(k) => if Shows(s, e) then [SetDisplay(k.term)] else []
    case Output(cs) => if InUser(s) then [Print(Own(s), cs)] else []
    case UserStore(off, b) => StoreMeaning(s, off, b)
    case Input(d) => if IsInput(d) then [d] else []
  }

  function StoreMeaning(s: K.State, off: int, b: Byte): seq<Event> {
    if InUser(s) && s.procs[s.cpu.who].vidmap && 0 <= off < VIDEO_PAGE then [Store(Own(s), off, b)] else []
  }

  /** The events a run of acts should be to the terminals. */
  function Flow(s: K.State, es: seq<Act>): seq<Event>
    requires K.Sized(s)
    decreases |es|
  {
    if es == [] then [] else Meaning(s, es[0]) + Flow(StepTable(s, es[0]), es[1..])
  }

  ghost function Applied(v: Video, ds: seq<Event>): Video
    requires VideoOk(v)
  {
    if ds == [] then v else Step(v, ds[0])
  }

  // ---------------------------------------------------------------- one step

  /** Process table and screens belong together. */
  ghost predicate Fits(s: K.State, v: Video) { VideoOk(v) && |v.terms| == |s.terms| && v.display == s.display }

  /** In user mode, the entry is there iff the process has called vidmap, and leads to its terminal. */
  lemma EntryIsOwn(s: K.State, a: S.Os, v: Video)
    requires Refines(s, a) && Wired(v) && |v.terms| == |s.terms| && v.display == s.display && s.cpu.User?
    ensures InUser(s) && 0 <= Own(s) < |v.terms|
    ensures s.vid.present <==> s.procs[s.cpu.who].vidmap
    ensures s.vid.present ==> PageAt(s.vid.target) == v.terms[Own(s)].videoMem
  {
    CurrentFacts(s, a);
    var t := a.active;
    assert s.terms[t].videoMem == if t == s.display then E.Vga else E.Backing(t);
  }

  lemma StoreAt(v: Video, t: int, off: int, b: Byte, page: int)
    requires VideoOk(v) && 0 <= t < |v.terms| && 0 <= off < VIDEO_PAGE && page == v.terms[t].videoMem
    ensures 0 <= page + off < |v.mem| && Step(v, Store(t, off, b)) == v.(mem := v.mem[page + off := b])
  {
    HoldsAt(v, t);
  }

  lemma StoredAs(s: K.State, v: Video, off: int, b: Byte)
    requires VideoOk(v)
    requires s.cpu.User? ==>
               && InUser(s) && 0 <= Own(s) < |v.terms| && (s.vid.present <==> s.procs[s.cpu.who].vidmap)
               && (s.vid.present ==> PageAt(s.vid.target) == v.terms[Own(s)].videoMem)
    ensures Stored(s, v, off, b) == Applied(v, StoreMeaning(s, off, b))
  {
    if s.cpu.User? && s.vid.present && 0 <= off < VIDEO_PAGE { StoreAt(v, Own(s), off, b, PageAt(s.vid.target)); }
  }

  /** A store through the vidmap page is a store to the storing process's own screen; no other act
      consults the entry. */
  lemma StepMeans(s: K.State, a: S.Os, v: Video, e: Act)
    requires Refines(s, a) && Fits(s, v)
    ensures StepVideo(s, v, e) == Applied(v, Meaning(s, e))
  {
    if e.UserStore? {
      if s.cpu.User? { EntryIsOwn(s, a, v); }
      StoredAs(s, v, e.off, e.b);
    }
  }

  lemma SessionDisplay(a: S.Os, e: E.Event)
    requires S.WellFormed(a)
    ensures var b := S.Step(a, e).a;
            |b.calls| == |a.calls| && b.display == if e.SetDisplay? && S.Enabled(a, e) then e.term else a.display
  {
  }

  lemma ShapeOf(s: K.State, a: S.Os)
    requires Refines(s, a)
    ensures S.WellFormed(a) && |a.calls| == |s.terms| && a.display == s.display
  {
  }

  lemma KernelDisplay(s: K.State, a: S.Os, e: E.Event)
    requires Refines(s, a)
    ensures var s' := K.Step(s, e).s;
            && Refines(s', S.Step(a, e).a) && |s'.terms| == |s.terms|
            && s'.display == if e.SetDisplay? && S.Enabled(a, e) then e.term else s.display
  {
    ShapeOf(s, a);
    StepRefines(s, a, e);
    SessionDisplay(a, e);
    ShapeOf(K.Step(s, e).s, S.Step(a, e).a);
  }

  lemma TableAfter(s: K.State, a: S.Os, e: Act) returns (a': S.Os)
    requires Refines(s, a)
    ensures var s' := StepTable(s, e);
            && Refines(s', a') && |s'.terms| == |s.terms|
            && s'.display == if Shows(s, e) then e.e.term else s.display
  {
    a' := a;
    if e.Kernel? {
      KernelDisplay(s, a, e.e);
      EnabledAgree(s, a, e.e);
      a' := S.Step(a, e.e).a;
    }
  }

  lemma AppliedOk(v: Video, ds: seq<Event>, v': Video)
    requires VideoOk(v) && (ds == [] || StepSafe(v, ds[0])) && v' == Applied(v, ds)
    ensures VideoOk(v') && |v'.terms| == |v.terms|
    ensures v'.display == if ds != [] && ds[0].SetDisplay? && 0 <= ds[0].n < |v.terms| then ds[0].n else v.display
  {
    if ds != [] { T.StepOk(v, ds[0]); }
  }

  lemma MeantDisplay(s: K.State, e: Act, n: nat)
    requires n == |s.terms|
    ensures var ds := Meaning(s, e);
            && (ds != [] && ds[0].SetDisplay? && 0 <= ds[0].n < n <==> Shows(s, e))
            && (Shows(s, e) ==> ds[0].n == e.e.term)
  {
  }

  lemma FitsAfter(s: K.State, v: Video, e: Act, s': K.State, v': Video)
    requires Fits(s, v) && (Meaning(s, e) == [] || StepSafe(v, Meaning(s, e)[0])) && v' == Applied(v, Meaning(s, e))
    requires |s'.terms| == |s.terms| && s'.display == if Shows(s, e) then e.e.term else s.display
    ensures Fits(s', v')
  {
    AppliedOk(v, Meaning(s, e), v');
    MeantDisplay(s, e, |s.terms|);
  }

  // ---------------------------------------------------------------- whole runs

  lemma RunFirst(v: Video, ds: seq<Event>, rest: seq<Event>, v1: Video)
    requires VideoOk(v) && |ds| <= 1 && T.SafeRun(v, ds + rest) && v1 == Applied(v, ds)
    ensures ds == [] || StepSafe(v, ds[0])
    ensures VideoOk(v1) && T.SafeRun(v1, rest) && T.After(v, ds + rest) == T.After(v1, rest)
  {
    if ds == [] {
      assert ds + rest == rest;
    } else {
      assert (ds + rest)[0] == ds[0] && (ds + rest)[1..] == rest;
      T.StepOk(v, ds[0]);
    }
  }

  /** Over every run of processes, interrupts, output, input and vidmap stores, the screens are what
      the acts mean. */
  lemma {:induction false} RunMeans(s: K.State, a: S.Os, v: Video, es: seq<Act>, flow: seq<Event>)
    requires Refines(s, a) && Fits(s, v) && flow == Flow(s, es) && T.SafeRun(v, flow)
    ensures VideoAfter(s, v, es) == T.After(v, flow)
    decreases |es|
  {
    if es != [] {
      var s1, v1, rest := StepTable(s, es[0]), StepVideo(s, v, es[0]), Flow(StepTable(s, es[0]), es[1..]);
      StepMeans(s, a, v, es[0]);
      RunFirst(v, Meaning(s, es[0]), rest, v1);
      var a1 := TableAfter(s, a, es[0]);
      FitsAfter(s, v, es[0], s1, v1);
      RunMeans(s1, a1, v1, es[1..], rest);
    }
  }

  /** So each terminal is a standalone terminal fed its own events, the stores of its own processes
      through the vidmap page among them: no store reaches the screen of another terminal, however
      processes start, halt and switch and the display changes between vidmap and store. */
  lemma StoresStayAtHome(s: K.State, a: S.Os, v: Video, es: seq<Act>, t: int)
    requires Refines(s, a) && Fits(s, v) && T.SafeRun(v, Flow(s, es)) && 0 <= t < |v.terms|
    ensures var v' := VideoAfter(s, v, es);
            && VideoOk(v') && |v'.terms| == |v.terms|
            && Logical(v', t) == T.EmuRun(Logical(v, t), T.Project(Flow(s, es), v.display, |v.terms|, t))
  {
    RunMeans(s, a, v, es, Flow(s, es));
    T.RunIsolated(v, Flow(s, es), t);
  }

  /** The same from boot on. */
  lemma StoresStayAtHomeFromBoot(n: nat, v: Video, counter: U32, es: seq<Act>, t: int)
    requires VideoOk(v) && 0 < |v.terms| <= n && v.display == 0 && 0 <= t < |v.terms|
    requires K.Sized(Boot(n, |v.terms|, counter)) && T.SafeRun(v, Flow(Boot(n, |v.terms|, counter), es))
    ensures var s := Boot(n, |v.terms|, counter); var v' := VideoAfter(s, v, es);
            && VideoOk(v') && |v'.terms| == |v.terms|
            && Logical(v', t) == T.EmuRun(Logical(v, t), T.Project(Flow(s, es), v.display, |v.terms|, t))
  {
    BootRefines(n, |v.terms|, counter);
    StoresStayAtHome(Boot(n, |v.terms|, counter), BootedOs(n, |v.terms|), v, es, t);
  }
}
