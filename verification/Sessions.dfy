/** What the process code is for, without a process table: every terminal is a call stack
    of programs, one terminal at a time has the processor, and vidmap, alarms and the
    displayed screen follow from that.  Slots are only names here. */
module Sessions {
  import opened Events

  datatype Os = Os(
    slots: nat,                 // how many processes can exist
    calls: seq<seq<int>>,       // per terminal: root shell first, foreground program last
    active: int,                // the terminal whose foreground program has the processor
    waiting: set<int>,          // programs blocked in a read
    mapped: set<int>,           // programs that have called vidmap
    display: int,
    born: seq<nat>,             // tick at which each slot's program started
    ticks: nat)

  datatype OsResult = OsResult(a: Os, out: Out)

  /** process_start_shell starts the shells of terminals 1, 2, ... before that of terminal 0. */
  function RootSlot(t: int, terminals: int): int { if t == 0 then terminals - 1 else t - 1 }

  function Top(calls: seq<seq<int>>, t: int): int
    requires 0 <= t < |calls| && calls[t] != []
  {
    calls[t][|calls[t]| - 1]
  }

  predicate Occupied(calls: seq<seq<int>>, p: int) {
    exists t :: 0 <= t < |calls| && p in calls[t]
  }

  predicate Distinct(stack: seq<int>) {
    forall i, j :: 0 <= i < j < |stack| ==> stack[i] != stack[j]
  }

  /** Terminals are stacks of distinct slots, rooted at a fixed slot each. */
  ghost predicate WellFormed(a: Os) {
    && 0 < |a.calls| <= a.slots
    && |a.born| == a.slots
    && 0 <= a.active < |a.calls|
    && 0 <= a.display < |a.calls|
    && (forall t :: 0 <= t < |a.calls| ==> a.calls[t] != [] && a.calls[t][0] == RootSlot(t, |a.calls|))
    && (forall t, i :: 0 <= t < |a.calls| && 0 <= i < |a.calls[t]| ==> 0 <= a.calls[t][i] < a.slots)
    && (forall t :: 0 <= t < |a.calls| ==> Distinct(a.calls[t]))
    && (forall t, u, p :: 0 <= t < |a.calls| && 0 <= u < |a.calls| && p in a.calls[t] && p in a.calls[u] ==> t == u)
    && (forall p :: 0 <= p < a.slots ==> a.born[p] <= a.ticks)
  }

  function Current(a: Os): int
    requires 0 <= a.active < |a.calls| && a.calls[a.active] != []
  {
    Top(a.calls, a.active)
  }

  /** The lowest slot at or above `i` that is on no stack. */
  function FreeSlot(a: Os, i: nat): (r: nat)
    requires i <= a.slots
    ensures i <= r <= a.slots
    ensures r < a.slots ==> !Occupied(a.calls, r)
    ensures forall j :: i <= j < r ==> Occupied(a.calls, j)
    decreases a.slots - i
  {
    if i == a.slots || !Occupied(a.calls, i) then i else FreeSlot(a, i + 1)
  }

  /** How far slot q lies after slot p, going round. */
  function Distance(slots: nat, p: int, q: int): int {
    if p <= q then q - p else q - p + slots
  }

  /** Among the terminals below u other than the active one, the one whose foreground slot
      comes soonest after the current slot; the active terminal if there is no other. */
  function Soonest(a: Os, u: nat): (r: int)
    requires u <= |a.calls| && a.slots > 0 && 0 <= a.active < |a.calls|
    requires forall t :: 0 <= t < |a.calls| ==> a.calls[t] != []
    ensures 0 <= r < |a.calls|
    ensures r != a.active ==> r < u
    ensures forall t :: 0 <= t < u && t != a.active ==>
              r != a.active && Distance(a.slots, Current(a), Top(a.calls, r)) <= Distance(a.slots, Current(a), Top(a.calls, t))
  {
    if u == 0 then a.active
    else
      var r := Soonest(a, u - 1);
      if u - 1 == a.active then r
      else if r == a.active || Distance(a.slots, Current(a), Top(a.calls, u - 1)) < Distance(a.slots, Current(a), Top(a.calls, r))
      then u - 1
      else r
  }

  function NextTerminal(a: Os): int
    requires a.slots > 0 && 0 <= a.active < |a.calls|
    requires forall t :: 0 <= t < |a.calls| ==> a.calls[t] != []
  {
    Soonest(a, |a.calls|)
  }

  predicate Enabled(a: Os, e: Event)
    requires 0 <= a.active < |a.calls| && a.calls[a.active] != []
  {
    if Current(a) in a.waiting
    then e.Timer? || e.Tick? || e.Wake? || (e.SetDisplay? && 0 <= e.term < |a.calls|)
    else !e.Wake? && (e.SetDisplay? ==> 0 <= e.term < |a.calls|)
  }

  ghost function Step(a: Os, e: Event): OsResult
    requires WellFormed(a)
  {
    var cur := Current(a);
    var t := a.active;
    if !Enabled(a, e) then OsResult(a, Nothing)
    else
      match e
      case Execute(valid) =>
        var c := FreeSlot(a, 0);
        if !valid || c == a.slots then OsResult(a, Failed)
        else OsResult(a.(calls := a.calls[t := a.calls[t] + [c]], mapped := a.mapped - {c}, born := a.born[c := a.ticks]),
                      Spawned(c))
      case Halt(status) =>
        if |a.calls[t]| == 1
        then OsResult(a.(mapped := a.mapped - {cur}, born := a.born[cur := a.ticks]), Respawned(cur))
        else OsResult(a.(calls := a.calls[t := a.calls[t][..|a.calls[t]| - 1]]),
                      Resumed(a.calls[t][|a.calls[t]| - 2], status))
      case Timer => OsResult(a.(active := NextTerminal(a)), Nothing)
      case Vidmap(valid) => if valid then OsResult(a.(mapped := a.mapped + {cur}), Nothing) else OsResult(a, Failed)
      case SetDisplay(n) => OsResult(a.(display := n), Nothing)
      case Tick =>
        OsResult(a.(ticks := a.ticks + 1),
                 Alarms(set p | 0 <= p < a.slots && Occupied(a.calls, p) && (a.ticks + 1 - a.born[p]) % ALARM_TICKS == 0))
      case Block => OsResult(a.(waiting := a.waiting + {cur}), Nothing)
      case Wake => OsResult(a.(waiting := a.waiting - {cur}), Nothing)
  }

  /** Which screen the current program's vidmap page shows, if it has one. */
  function Mapped(a: Os): (r: (bool, VideoMem))
    requires 0 <= a.active < |a.calls| && a.calls[a.active] != []
  {
    (Current(a) in a.mapped, if a.active == a.display then Vga else Backing(a.active))
  }

  lemma PushWellFormed(a: Os, c: int)
    requires WellFormed(a)
    requires 0 <= c < a.slots && !Occupied(a.calls, c)
    ensures WellFormed(a.(calls := a.calls[a.active := a.calls[a.active] + [c]]))
  {
    assert forall t :: 0 <= t < |a.calls| ==> c !in a.calls[t];
    var s := a.calls[a.active];
    assert forall i :: 0 <= i < |s| ==> s[i] in s;
    assert Distinct(s + [c]);
  }

  lemma PopWellFormed(a: Os)
    requires WellFormed(a)
    requires |a.calls[a.active]| > 1
    ensures WellFormed(a.(calls := a.calls[a.active := a.calls[a.active][..|a.calls[a.active]| - 1]]))
  {
    var s := a.calls[a.active];
    assert forall p :: p in s[..|s| - 1] ==> p in s;
    assert Distinct(s[..|s| - 1]);
  }

  lemma StepWellFormed(a: Os, e: Event)
    requires WellFormed(a)
    ensures WellFormed(Step(a, e).a)
  {
    if Enabled(a, e) {
      match e
      case Execute(valid) =>
        if valid && FreeSlot(a, 0) < a.slots { PushWellFormed(a, FreeSlot(a, 0)); }
      case Halt(_) =>
        if |a.calls[a.active]| > 1 { PopWellFormed(a); }
      case _ =>
    }
  }

  ghost function After(a: Os, es: seq<Event>): (r: Os)
    requires WellFormed(a)
    ensures WellFormed(r)
    decreases |es|
  {
    StepWellFormed(a, if es == [] then Timer else es[0]);
    if es == [] then a else After(Step(a, es[0]).a, es[1..])
  }

  ghost function Trace(a: Os, es: seq<Event>): (r: seq<Out>)
    requires WellFormed(a)
    ensures |r| == |es|
    decreases |es|
  {
    StepWellFormed(a, if es == [] then Timer else es[0]);
    if es == [] then [] else [Step(a, es[0]).out] + Trace(Step(a, es[0]).a, es[1..])
  }
}
