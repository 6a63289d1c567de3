/** Waiting on a virtual clock (rtc_read in rtc.c). */
module Rtc {
  import opened Machine
  import opened Files
  import opened Arithmetic
  import opened Waiting
  import Signals

  const MAX_RTC_FREQ := 1024

  /** Ticks between two virtual interrupts. */
  function Period(f: int): (p: nat)
    requires FreqOk(f)
    ensures 1 <= p <= 512 && p * f == MAX_RTC_FREQ
  {
    MAX_RTC_FREQ / f
  }

  /** target_counter, in 32 bits. */
  function Target(counter: U32, f: int): U32
    requires FreqOk(f)
  {
    (counter / Period(f) + 1) * Period(f) % WORD
  }

  lemma Divides(f: int)
    requires FreqOk(f)
    ensures WORD == Period(f) * (f * 0x40_0000)
  {
    assert Period(f) * (f * 0x40_0000) == (Period(f) * f) * 0x40_0000;
  }

  lemma NextMultiple(c: nat, p: nat, k: nat)
    requires p > 0 && c < k * p
    ensures c < (c / p + 1) * p <= c + p && (c / p + 1) * p <= k * p
    ensures (c / p + 1) * p == k * p <==> c >= k * p - p
  {
    var q := c / p;
    Parts(c, p);
    assert (q + 1) * p == q * p + p;
    var d := k - (q + 1);
    assert d * p == k * p - (q + 1) * p;
    if d <= -1 { MulMono(d, -1, p); }
    if d >= 1 { MulMono(1, d, p); }
  }

  /** The target is the next multiple of the period, except in the last period before the 32-bit
      counter wraps: there, and only there, it is zero and the read does not wait. */
  lemma TargetMeans(c: U32, f: int)
    requires FreqOk(f)
    ensures c < WORD - Period(f) ==>
              Target(c, f) == (c / Period(f) + 1) * Period(f) && c < Target(c, f) <= c + Period(f)
    ensures c >= WORD - Period(f) <==> Target(c, f) <= c
  {
    var p := Period(f);
    Divides(f);
    NextMultiple(c, p, f * 0x40_0000);
    var t := (c / p + 1) * p;
    assert t <= WORD;
    if t < WORD { assert t % WORD == t; }
  }

  /** For instance: the last tick before the wrap, at any frequency. */
  lemma LastTickDoesNotWait(f: int)
    requires FreqOk(f)
    ensures Target(0xFFFF_FFFF, f) == 0
  {
    Divides(f);
    NextMultiple(0xFFFF_FFFF, Period(f), f * 0x40_0000);
  }

  // ---------------------------------------------------------------- the wait loop

  /** One look at the counter. */
  function Look(counter: U32, target: U32): Wait { if counter >= target then Ready(0) else Blocked }

  function Rounds(f: int, looks: seq<Glimpse<U32>>): seq<Round>
    requires FreqOk(f) && looks != []
  {
    seq(|looks|, r requires 0 <= r < |looks| => Round(Look(looks[r].seen, Target(looks[0].seen, f)), looks[r].sigs))
  }

  /** rtc_read over everything the interrupts may do between its rounds; the first round sees the
      counter the target was computed from.  It stops at the first round that has reached the target,
      or failing that has a signal pending. */
  method ReadClock(f: int, looks: seq<Glimpse<U32>>) returns (w: Waited)
    requires FreqOk(f) && looks != []
    ensures Stopped(Rounds(f, looks), w)
    ensures looks[0].seen >= WORD - Period(f) <==> w == Returned(0, 0)
  {
    TargetMeans(looks[0].seen, f);
    var maxTicks := MAX_RTC_FREQ / f;
    var target := (looks[0].seen / maxTicks + 1) * maxTicks % WORD;
    var r := 0;
    while r < |looks|
      invariant 0 <= r <= |looks|
      invariant forall q :: 0 <= q < r ==> Fruitless(Rounds(f, looks)[q])
      invariant r > 0 ==> looks[0].seen < WORD - Period(f)
    {
      if looks[r].seen >= target { return Returned(0, r); }
      if Signals.HasPending(looks[r].sigs) { return Aborted(r); }
      r := r + 1;
    }
    return StillWaiting;
  }

  /** A reader woken at every tick returns exactly on the multiple. */
  lemma PromptReturn(f: int, looks: seq<Glimpse<U32>>, w: Waited)
    requires FreqOk(f) && looks != [] && looks[0].seen < WORD - Period(f)
    requires Stopped(Rounds(f, looks), w) && w.Returned?
    requires forall q, q' :: 0 <= q && q' == q + 1 && q' <= w.round ==> looks[q'].seen <= looks[q].seen + 1
    ensures looks[w.round].seen == (looks[0].seen / Period(f) + 1) * Period(f)
  {
    TargetMeans(looks[0].seen, f);
    assert w.round > 0;
    var q := w.round - 1;
    assert Fruitless(Rounds(f, looks)[q]);
  }

  // ---------------------------------------------------------------- many reads

  /** One successful read: the counter when it was called and when it returned. */
  datatype Call = Call(start: U32, end: U32)

  /** Successful reads of a clock at frequency f, one after the other, short of the wrap. */
  ghost predicate Successes(f: int, cs: seq<Call>)
    requires FreqOk(f)
  {
    && (forall i :: 0 <= i < |cs| ==> cs[i].start < WORD - Period(f) && cs[i].end >= Target(cs[i].start, f))
    && (forall i, j :: 0 <= i && j == i + 1 && j < |cs| ==> cs[i].end <= cs[j].start)
  }

  lemma {:induction false} PeriodsPass(f: int, cs: seq<Call>)
    requires FreqOk(f) && cs != [] && Successes(f, cs)
    ensures cs[|cs| - 1].end / Period(f) >= cs[0].start / Period(f) + |cs|
    decreases |cs|
  {
    var p := Period(f);
    var last := cs[|cs| - 1];
    TargetMeans(last.start, f);
    DivMono(Target(last.start, f), last.end, p);
    MultipleDiv(last.start / p + 1, p);
    if |cs| > 1 {
      var i := |cs| - 2;
      PeriodsPass(f, cs[..|cs| - 1]);
      assert cs[..|cs| - 1][i] == cs[i];
      DivMono(cs[i].end, last.start, p);
    }
  }

  lemma Scaled(n: nat, f: int)
    requires FreqOk(f)
    ensures n * MAX_RTC_FREQ / f == n * Period(f)
  {
    var p := Period(f);
    assert n * MAX_RTC_FREQ == n * (p * f) == (n * p) * f;
    MultipleDiv(n * p, f);
  }

  lemma FarApart(a: nat, b: nat, p: nat, n: nat)
    requires p > 0 && n > 0 && b / p >= a / p + n
    ensures b - a > (n - 1) * p
  {
    Parts(a, p);
    Parts(b, p);
    MulMono(a / p + n, b / p, p);
    assert (a / p + n) * p == a / p * p + (n - 1) * p + p;
  }

  /** n successful reads take more than n - 1 periods. */
  lemma ReadsTakeTime(f: int, cs: seq<Call>)
    requires FreqOk(f) && cs != [] && Successes(f, cs)
    ensures cs[|cs| - 1].end - cs[0].start > (|cs| - 1) * MAX_RTC_FREQ / f
    ensures (|cs| - 1) * MAX_RTC_FREQ / f == (|cs| - 1) * Period(f)
  {
    var p, n := Period(f), |cs|;
    var a, b := cs[0].start, cs[n - 1].end;
    PeriodsPass(f, cs);
    FarApart(a, b, p, n);
    assert (n - 1) * MAX_RTC_FREQ / f == (n - 1) * p by { Scaled(n - 1, f); }
  }

  /** Reads at frequency f, each called when the one before has returned and returning on its target. */
  ghost predicate Prompt(f: int, cs: seq<Call>)
    requires FreqOk(f)
  {
    && (forall i :: 0 <= i < |cs| ==> cs[i].start < WORD - Period(f) && cs[i].end == Target(cs[i].start, f))
    && (forall i, j :: 0 <= i && j == i + 1 && j < |cs| ==> cs[j].start == cs[i].end)
  }

  /** They return on successive multiples of the period: no tick is lost and none drifts. */
  lemma {:induction false} BackToBack(f: int, cs: seq<Call>)
    requires FreqOk(f) && cs != [] && Prompt(f, cs)
    ensures cs[|cs| - 1].end == (cs[0].start / Period(f) + |cs|) * Period(f)
    decreases |cs|
  {
    var p, last := Period(f), cs[|cs| - 1];
    TargetMeans(last.start, f);
    if |cs| > 1 {
      var i := |cs| - 2;
      BackToBack(f, cs[..|cs| - 1]);
      assert cs[..|cs| - 1][i] == cs[i];
      assert last.start == cs[i].end;
      MultipleDiv(cs[0].start / p + |cs| - 1, p);
    }
  }
}
