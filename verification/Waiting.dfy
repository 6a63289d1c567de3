/** The `sti; hlt; cli` loops of terminal_wait_kbd_input and rtc_read: look for what is wanted, then
    for a pending signal, then sleep until some interrupt. */
module Waiting {
  import opened Machine
  import opened UserMemory
  import opened Signals

  /** What a look at the device says: the value to return, or nothing yet. */
  datatype Wait = Ready(n: int) | Blocked

  /** What one round of a loop sees: the device, and the signal table of the process. */
  datatype Glimpse<T> = Glimpse(seen: T, sigs: Table)

  /** A round, with the device already looked at. */
  datatype Round = Round(wait: Wait, sigs: Table)

  datatype Waited = Returned(n: int, round: int) | Aborted(round: int) | StillWaiting

  /** What a system call that may sleep has come to. */
  datatype Ret = Ret(n: int) | Sleeping

  predicate Fruitless(r: Round) { r.wait == Blocked && !HasPending(r.sigs) }

  /** The loop stops at the first round that finds what is wanted, or failing that a signal. */
  ghost predicate Stopped(rounds: seq<Round>, w: Waited) {
    var stop := if w.StillWaiting? then |rounds| else w.round;
    && 0 <= stop <= |rounds|
    && (forall r :: 0 <= r < stop ==> Fruitless(rounds[r]))
    && (w.Returned? ==> stop < |rounds| && rounds[stop].wait == Ready(w.n))
    && (w.Aborted? ==> stop < |rounds| && rounds[stop].wait == Blocked && HasPending(rounds[stop].sigs))
  }

  /** There is only one way to stop. */
  lemma StoppedOnce(rounds: seq<Round>, w: Waited, w': Waited)
    requires Stopped(rounds, w) && Stopped(rounds, w')
    ensures w == w'
  {
  }

  const SYS_READ: U32 := 3

  /** A read that gives up returns -1, and on the way back to user mode the lowest-numbered signal that
      does something in the table that made it give up is delivered or kills the process. */
  lemma AbortedReadIsHandled(rounds: seq<Round>, w: Waited, p: Proc, m: Page)
    requires Stopped(rounds, w) && w.Aborted?
    requires Numbered(p.sigs) && p.sigs == rounds[w.round].sigs && p.regs.eax == SYS_READ
    ensures var x := Step(p, Syscall(0xFFFF_FFFF, m));
            && x.outcome != Nothing && 0 <= x.outcome.signum < 5 && Acts(p.sigs[x.outcome.signum])
            && (forall j :: 0 <= j < x.outcome.signum ==> !Acts(p.sigs[j]))
            && (x.outcome.Handler? ==> x.p.frames != [] && x.p.frames[|x.p.frames| - 1].ctx == p.regs.(eax := 0xFFFF_FFFF))
  {
    PendingMeansAction(p.sigs, m, p.regs.(eax := 0xFFFF_FFFF));
  }
}
