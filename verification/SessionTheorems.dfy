/** What the session machine guarantees: execute() returns what its own child halted with,
    the scheduler is fair, and alarms come on time. */
module SessionTheorems {
  import opened Events
  import opened Sessions

  // ---------------------------------------------------------------- execute returns the child's status

  /** A stack that has grown to `pre` keeps it as a prefix until the program at its end
      halts, and only that halt resumes the program below. */
  lemma PrefixStep(a: Os, e: Event, t: int, pre: seq<int>)
    requires WellFormed(a)
    requires 0 <= t < |a.calls| && 2 <= |pre| && pre <= a.calls[t]
    ensures var r := Step(a, e);
            if r.out.Resumed? && r.out.parent == pre[|pre| - 2]
            then e == Halt(r.out.status) && a.active == t && a.calls[t] == pre && Current(a) == pre[|pre| - 1]
            else 0 <= t < |r.a.calls| && pre <= r.a.calls[t]
  {
    var st := a.calls[a.active];
    if Enabled(a, e) && e.Halt? && |st| > 1 {
      var q := st[|st| - 2];
      assert q in st;
      if q == pre[|pre| - 2] {
        assert a.calls[t][|pre| - 2] == q;
        assert q in a.calls[t];
        assert t == a.active;
        assert Distinct(st);
        assert |pre| == |st|;
      } else if a.active == t && |pre| == |st| {
        assert false;
      }
    }
  }

  /** The call of execute() that made the stack of terminal t equal to `pre` returns, if ever,
      with the status its own child halted with. */
  lemma {:induction false} ReturnMatches(a: Os, t: int, pre: seq<int>, es: seq<Event>, k: nat, status: int)
    requires WellFormed(a)
    requires 0 <= t < |a.calls| && 2 <= |pre| && pre <= a.calls[t]
    requires k < |es|
    requires Trace(a, es)[k] == Resumed(pre[|pre| - 2], status)
    requires forall j :: 0 <= j < k ==> !(Trace(a, es)[j].Resumed? && Trace(a, es)[j].parent == pre[|pre| - 2])
    ensures es[k] == Halt(status)
    ensures var b := After(a, es[..k]); b.active == t && b.calls[t] == pre && Current(b) == pre[|pre| - 1]
    decreases k
  {
    PrefixStep(a, es[0], t, pre);
    StepWellFormed(a, es[0]);
    if k > 0 {
      assert !(Trace(a, es)[0].Resumed? && Trace(a, es)[0].parent == pre[|pre| - 2]);
      assert forall j :: 0 <= j < |es| - 1 ==> Trace(Step(a, es[0]).a, es[1..])[j] == Trace(a, es)[j + 1];
      ReturnMatches(Step(a, es[0]).a, t, pre, es[1..], k - 1, status);
      assert es[..k][1..] == es[1..][..k - 1];
    }
  }

  /** A successful execute leaves caller and child as the two topmost programs. */
  lemma SpawnedOnTop(a: Os)
    requires WellFormed(a)
    requires Step(a, Execute(true)).out.Spawned?
    ensures var r := Step(a, Execute(true));
            && r.a == a.(calls := r.a.calls, mapped := r.a.mapped, born := r.a.born)
            && |r.a.calls| == |a.calls|
            && r.a.calls[a.active] == a.calls[a.active] + [r.out.child]
  {
  }

  // ---------------------------------------------------------------- alarms

  predicate HaltsSlot(a: Os, e: Event, c: int)
    requires WellFormed(a)
  {
    e.Halt? && Enabled(a, e) && Current(a) == c
  }

  /** Program c is running or suspended throughout es. */
  ghost predicate Survives(a: Os, es: seq<Event>, c: int)
    requires WellFormed(a)
    decreases |es|
  {
    Occupied(a.calls, c) &&
    (es == [] || (!HaltsSlot(a, es[0], c) && (StepWellFormed(a, es[0]); Survives(Step(a, es[0]).a, es[1..], c))))
  }

  function Ticks(es: seq<Event>): nat {
    if es == [] then 0 else (if es[0] == Tick then 1 else 0) + Ticks(es[1..])
  }

  lemma BornStep(a: Os, e: Event, c: int)
    requires WellFormed(a)
    requires 0 <= c < a.slots && Occupied(a.calls, c) && !HaltsSlot(a, e, c)
    ensures Step(a, e).a.born[c] == a.born[c]
    ensures Step(a, e).a.slots == a.slots
    ensures Step(a, e).a.ticks == a.ticks + (if e == Tick then 1 else 0)
  {
  }

  /** A program that is n ticks old gets its alarm at the next tick exactly when n + 1 is a
      multiple of ten seconds. */
  lemma {:induction false} AlarmSchedule(a: Os, es: seq<Event>, c: int)
    requires WellFormed(a)
    requires 0 <= c < a.slots && a.born[c] == a.ticks
    requires Survives(a, es, c)
    ensures var out := Step(After(a, es), Tick).out;
            out.Alarms? && (c in out.pids <==> (Ticks(es) + 1) % ALARM_TICKS == 0)
  {
    SurvivorAge(a, es, c);
  }

  lemma {:induction false} SurvivorAge(a: Os, es: seq<Event>, c: int)
    requires WellFormed(a)
    requires 0 <= c < a.slots
    requires Survives(a, es, c)
    ensures var b := After(a, es);
            && b.slots == a.slots
            && b.born[c] == a.born[c] && b.ticks == a.ticks + Ticks(es) && Occupied(b.calls, c)
    decreases |es|
  {
    if es != [] {
      BornStep(a, es[0], c);
      StepWellFormed(a, es[0]);
      SurvivorAge(Step(a, es[0]).a, es[1..], c);
    }
  }

  // ---------------------------------------------------------------- round robin

  /** The terminal that has the processor after k timer interrupts. */
  ghost function Turn(a: Os, k: nat): (t: int)
    requires WellFormed(a)
    ensures 0 <= t < |a.calls|
  {
    if k == 0 then a.active else NextTerminal(a.(active := Turn(a, k - 1)))
  }

  /** Distance of a terminal's foreground slot from the slot running at the start. */
  function Lag(a: Os, t: int): int
    requires 0 <= a.active < |a.calls| && 0 <= t < |a.calls| && a.calls[a.active] != [] && a.calls[t] != []
  {
    Distance(a.slots, Current(a), Top(a.calls, t))
  }

  ghost function Ahead(a: Os, t: int): set<int>
    requires WellFormed(a) && 0 <= t < |a.calls|
  {
    set u | 0 <= u < |a.calls| && Lag(a, u) < Lag(a, t)
  }

  lemma LagFacts(a: Os, t: int, u: int)
    requires WellFormed(a) && 0 <= t < |a.calls| && 0 <= u < |a.calls|
    ensures 0 <= Lag(a, t) < a.slots
    ensures Lag(a, t) == Lag(a, u) ==> t == u
    ensures Lag(a, a.active) == 0
    ensures Distance(a.slots, Top(a.calls, t), Top(a.calls, u)) ==
            if Lag(a, t) <= Lag(a, u) then Lag(a, u) - Lag(a, t) else Lag(a, u) - Lag(a, t) + a.slots
  {
    assert Top(a.calls, t) in a.calls[t] && Top(a.calls, u) in a.calls[u];
    assert 0 <= a.calls[a.active][|a.calls[a.active]| - 1] < a.slots;
    assert 0 <= a.calls[t][|a.calls[t]| - 1] < a.slots;
    assert 0 <= a.calls[u][|a.calls[u]| - 1] < a.slots;
  }

  /** From terminal t the processor goes to the terminal next in lag ... */
  lemma NextInLag(a: Os, t: int)
    requires WellFormed(a) && 0 <= t < |a.calls|
    ensures var n := NextTerminal(a.(active := t));
            forall u :: 0 <= u < |a.calls| && Lag(a, u) > Lag(a, t) ==> Lag(a, t) < Lag(a, n) <= Lag(a, u)
  {
    var b := a.(active := t);
    var n := NextTerminal(b);
    forall u | 0 <= u < |a.calls| && Lag(a, u) > Lag(a, t) ensures Lag(a, t) < Lag(a, n) <= Lag(a, u) {
      LagFacts(a, t, u);
      LagFacts(a, t, n);
      assert Distance(b.slots, Current(b), Top(b.calls, n)) <= Distance(b.slots, Current(b), Top(b.calls, u));
    }
  }

  /** ... or, from the last one, back to the start. */
  lemma LastWraps(a: Os, t: int)
    requires WellFormed(a) && 0 <= t < |a.calls|
    requires forall u :: 0 <= u < |a.calls| ==> Lag(a, u) <= Lag(a, t)
    ensures NextTerminal(a.(active := t)) == a.active
  {
    var n := NextTerminal(a.(active := t));
    LagFacts(a, t, n);
    LagFacts(a, t, a.active);
    LagFacts(a, n, a.active);
  }

  lemma AheadGrows(a: Os, t: int, n: int)
    requires WellFormed(a) && 0 <= t < |a.calls| && 0 <= n < |a.calls|
    requires Lag(a, t) < Lag(a, n)
    requires forall u :: 0 <= u < |a.calls| && Lag(a, u) > Lag(a, t) ==> Lag(a, n) <= Lag(a, u)
    ensures Ahead(a, n) == Ahead(a, t) + {t}
    ensures |Ahead(a, n)| == |Ahead(a, t)| + 1
  {
    forall u | 0 <= u < |a.calls| && Lag(a, u) < Lag(a, n) && u != t ensures Lag(a, u) < Lag(a, t) {
      LagFacts(a, u, t);
    }
    assert Ahead(a, n) == Ahead(a, t) + {t};
  }

  function UpTo(n: nat): (r: set<int>)
    ensures |r| == n
    ensures forall u :: u in r <==> 0 <= u < n
  {
    if n == 0 then {} else UpTo(n - 1) + {n - 1}
  }

  lemma AheadBound(a: Os, t: int)
    requires WellFormed(a) && 0 <= t < |a.calls|
    ensures |Ahead(a, t)| < |a.calls|
    ensures |Ahead(a, t)| == |a.calls| - 1 <==> forall u :: 0 <= u < |a.calls| ==> Lag(a, u) <= Lag(a, t)
  {
    var rest := UpTo(|a.calls|) - {t};
    assert |rest| == |a.calls| - 1;
    assert Ahead(a, t) <= rest;
    Subset(Ahead(a, t), rest);
    forall u | 0 <= u < |a.calls| && u != t ensures u in rest && (u in Ahead(a, t) <==> Lag(a, u) <= Lag(a, t)) {
      LagFacts(a, u, t);
    }
    if forall u :: 0 <= u < |a.calls| ==> Lag(a, u) <= Lag(a, t) {
      assert Ahead(a, t) == rest;
    }
  }

  lemma Subset(x: set<int>, y: set<int>)
    requires x <= y
    ensures |x| <= |y|
    ensures |x| == |y| ==> x == y
  {
    assert y == x + (y - x);
  }

  lemma NoneAhead(a: Os)
    requires WellFormed(a)
    ensures Ahead(a, a.active) == {}
  {
    LagFacts(a, a.active, a.active);
    forall u | 0 <= u < |a.calls| ensures Lag(a, u) >= 0 { LagFacts(a, u, u); }
  }

  /** A terminal that is not the last in lag is followed by one with one more ahead of it. */
  lemma RankSteps(a: Os, t: int)
    requires WellFormed(a) && 0 <= t < |a.calls| && |Ahead(a, t)| < |a.calls| - 1
    ensures |Ahead(a, NextTerminal(a.(active := t)))| == |Ahead(a, t)| + 1
  {
    AheadBound(a, t);
    NextInLag(a, t);
    AheadGrows(a, t, NextTerminal(a.(active := t)));
  }

  /** After k < NUM_TERMINALS interrupts, exactly k terminals come before the running one. */
  lemma {:induction false} TurnRank(a: Os, k: nat)
    requires WellFormed(a) && k < |a.calls|
    ensures |Ahead(a, Turn(a, k))| == k
  {
    if k == 0 {
      NoneAhead(a);
    } else {
      TurnRank(a, k - 1);
      RankSteps(a, Turn(a, k - 1));
    }
  }

  lemma EarlierHasFewerAhead(a: Os, t: int, u: int)
    requires WellFormed(a) && 0 <= t < |a.calls| && 0 <= u < |a.calls| && Lag(a, t) < Lag(a, u)
    ensures |Ahead(a, t)| < |Ahead(a, u)|
  {
    assert Ahead(a, t) + {t} <= Ahead(a, u);
    Subset(Ahead(a, t) + {t}, Ahead(a, u));
  }

  lemma SameRank(a: Os, t: int, u: int, k: nat)
    requires WellFormed(a) && 0 <= u < |a.calls| && k < |a.calls|
    requires t == Turn(a, k) && |Ahead(a, u)| == k
    ensures t == u
  {
    LagFacts(a, t, u);
    if Lag(a, t) < Lag(a, u) {
      EarlierHasFewerAhead(a, t, u);
    } else if Lag(a, u) < Lag(a, t) {
      EarlierHasFewerAhead(a, u, t);
    }
    TurnRank(a, k);
  }

  /** Within NUM_TERMINALS consecutive interrupts every terminal has the processor ... */
  lemma TurnReaches(a: Os, t: int) returns (k: nat)
    requires WellFormed(a) && 0 <= t < |a.calls|
    ensures k < |a.calls| && Turn(a, k) == t
  {
    k := |Ahead(a, t)|;
    AheadBound(a, t);
    SameRank(a, Turn(a, k), t, k);
  }

  /** ... exactly once ... */
  lemma TurnOnce(a: Os, j: nat, k: nat)
    requires WellFormed(a) && j < |a.calls| && k < |a.calls|
    requires Turn(a, j) == Turn(a, k)
    ensures j == k
  {
    TurnRank(a, j);
    TurnRank(a, k);
  }

  /** ... and the round ends where it began. */
  lemma TurnCloses(a: Os)
    requires WellFormed(a)
    ensures Turn(a, |a.calls|) == a.active
  {
    var n := |a.calls|;
    TurnRank(a, n - 1);
    RankWraps(a, Turn(a, n - 1));
  }

  lemma RankWraps(a: Os, t: int)
    requires WellFormed(a) && 0 <= t < |a.calls|
    requires |Ahead(a, t)| == |a.calls| - 1
    ensures NextTerminal(a.(active := t)) == a.active
  {
    AheadBound(a, t);
    LastWraps(a, t);
  }

  predicate NoCalls(es: seq<Event>) {
    forall i :: 0 <= i < |es| ==> !es[i].Execute? && !es[i].Halt?
  }

  function Timers(es: seq<Event>): nat {
    if es == [] then 0 else (if es[0] == Timer then 1 else 0) + Timers(es[1..])
  }

  lemma TurnShift(a: Os, k: nat)
    requires WellFormed(a)
    ensures WellFormed(a.(active := NextTerminal(a)))
    ensures Turn(a.(active := NextTerminal(a)), k) == Turn(a, k + 1)
  {
    if k > 0 { TurnShift(a, k - 1); }
  }

  lemma TurnDepends(a: Os, b: Os, k: nat)
    requires WellFormed(a) && WellFormed(b)
    requires a.calls == b.calls && a.active == b.active && a.slots == b.slots
    ensures Turn(a, k) == Turn(b, k)
  {
    if k > 0 {
      TurnDepends(a, b, k - 1);
      SoonestDepends(a.(active := Turn(a, k - 1)), b.(active := Turn(b, k - 1)), |a.calls|);
    }
  }

  lemma SoonestDepends(a: Os, b: Os, u: nat)
    requires u <= |a.calls| && a.slots > 0 && 0 <= a.active < |a.calls|
    requires forall t :: 0 <= t < |a.calls| ==> a.calls[t] != []
    requires a.calls == b.calls && a.active == b.active && a.slots == b.slots
    ensures Soonest(a, u) == Soonest(b, u)
  {
  }

  lemma QuietStep(a: Os, e: Event)
    requires WellFormed(a) && !e.Execute? && !e.Halt?
    ensures var b := Step(a, e).a;
            && b.calls == a.calls && b.slots == a.slots
            && b.active == if e == Timer then NextTerminal(a) else a.active
  {
  }

  lemma TurnStep(a: Os, e: Event, k: nat)
    requires WellFormed(a) && !e.Execute? && !e.Halt?
    ensures WellFormed(Step(a, e).a) && Step(a, e).a.calls == a.calls
    ensures Turn(Step(a, e).a, k) == Turn(a, if e == Timer then k + 1 else k)
  {
    StepWellFormed(a, e);
    QuietStep(a, e);
    if e == Timer {
      TurnShift(a, k);
    } else {
      TurnDepends(a, Step(a, e).a, k);
    }
  }

  lemma {:induction false} QuietRun(a: Os, es: seq<Event>)
    requires WellFormed(a) && NoCalls(es)
    ensures After(a, es).calls == a.calls
    decreases |es|
  {
    if es != [] {
      StepWellFormed(a, es[0]);
      QuietStep(a, es[0]);
      QuietRun(Step(a, es[0]).a, es[1..]);
    }
  }

  lemma {:induction false} TurnRun(a: Os, es: seq<Event>, k: nat, t: int)
    requires WellFormed(a) && NoCalls(es) && k == Timers(es) && t == Turn(a, k)
    ensures After(a, es).active == t
    decreases |es|
  {
    if es != [] {
      var k' := Timers(es[1..]);
      var b := Step(a, es[0]).a;
      assert k == if es[0] == Timer then k' + 1 else k';
      TurnStep(a, es[0], k');
      assert Turn(b, k') == t;
      TurnRun(b, es[1..], k', t);
    }
  }

  /** Over any stretch without execute or halt, only the number of timer interrupts matters. */
  lemma RoundRobin(a: Os, es: seq<Event>)
    requires WellFormed(a) && NoCalls(es)
    ensures After(a, es).active == Turn(a, Timers(es))
    ensures After(a, es).calls == a.calls
  {
    QuietRun(a, es);
    TurnRun(a, es, Timers(es), Turn(a, Timers(es)));
  }
}
