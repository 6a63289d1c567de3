/** What drives the kernel and what it reports, shared by the machine and its specification. */
module Events {

  /** MAX_RTC_FREQ * SIG_ALARM_PERIOD. */
  const ALARM_TICKS: nat := 1024 * 10

  /** Where a terminal's screen is: on the VGA page or on its own backing page. */
  datatype VideoMem = Vga | Backing(term: int)

  datatype Event =
    | Execute(valid: bool)      // execute(); `valid` iff the command names an executable
    | Halt(status: int)         // halt(), or a fatal signal
    | Timer                     // PIT interrupt
    | Vidmap(valid: bool)       // vidmap(); `valid` iff the out pointer is writable
    | SetDisplay(term: int)     // ALT + function key
    | Tick                      // RTC interrupt
    | Block                     // a read() that has to wait
    | Wake                      // ... and is satisfied

  /** What a step reports to user code (or, for Alarms, to signal_raise). */
  datatype Out =
    | Nothing
    | Failed                              // execute() or vidmap() returned -1
    | Spawned(child: int)
    | Resumed(parent: int, status: int)   // execute() returned `status` in `parent`
    | Respawned(root: int)
    | Alarms(pids: set<int>)
}
