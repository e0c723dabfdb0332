/** The watchdog that polls a running container until it exits, overspends its CPU budget or
    outlives its wall budget. What each poll sees is given by functions of the poll's index. */
module Watchdog {
  import opened Options

  datatype Stop = Exited | CpuExceeded | WallExceeded

  /** What poll `i` sees: whether the container runs, its CPU seconds if they can be read, and the
      clock when the deadline is tested. */
  datatype View = View(running: nat -> bool, cpu: nat -> Option<real>, clock: nat -> real)

  function Min(x: real, y: real): real {
    if x <= y then x else y
  }

  function Max(x: real, y: real): real {
    if x >= y then x else y
  }

  function Wall(cpuBudget: int, wallBudget: Option<real>): real {
    if wallBudget.None? then 3.0 * cpuBudget as real
    else Min(3.0 * cpuBudget as real, Max(1.0, wallBudget.value))
  }

  function Deadline(start: real, cpuBudget: int, wallBudget: Option<real>): real {
    start + Wall(cpuBudget, wallBudget)
  }

  function Interval(cpuBudget: int): real {
    Max(0.5, Min(2.0, cpuBudget as real / 4.0))
  }

  /** The first CPU reading of the first `n` polls: the baseline. */
  function FirstReading(v: View, n: nat): Option<real> {
    if n == 0 then None
    else if FirstReading(v, n - 1).Some? then FirstReading(v, n - 1)
    else v.cpu(n - 1)
  }

  /** Poll `i` reads more than the budget above a baseline taken at an earlier poll. */
  predicate Overspent(v: View, cpuBudget: int, i: nat) {
    && v.cpu(i).Some?
    && FirstReading(v, i).Some?
    && v.cpu(i).value - FirstReading(v, i).value > cpuBudget as real
  }

  predicate Stops(v: View, cpuBudget: int, deadline: real, i: nat) {
    !v.running(i) || Overspent(v, cpuBudget, i) || v.clock(i) > deadline
  }

  function WhyStopped(v: View, cpuBudget: int, i: nat): Stop {
    if !v.running(i) then Exited
    else if Overspent(v, cpuBudget, i) then CpuExceeded
    else WallExceeded
  }

  predicate Slept(v: View, interval: real, i: nat) {
    v.clock(i + 1) >= v.clock(i) + interval
  }

  /** Every sleep advances the clock by at least the interval. */
  ghost predicate Advances(v: View, start: real, interval: real) {
    && v.clock(0) >= start
    && forall i: nat :: Slept(v, interval, i)
  }

  function Scaled(k: nat, interval: real): real {
    k as real * interval
  }

  lemma ScaledNext(k: nat, interval: real)
    ensures Scaled(k + 1, interval) == Scaled(k, interval) + interval
  {
    assert (k + 1) as real * interval == k as real * interval + 1.0 * interval;
  }

  lemma {:induction false} ClockAdvances(v: View, start: real, interval: real, i: nat)
    requires Advances(v, start, interval)
    ensures v.clock(i) >= start + Scaled(i, interval)
  {
    if i == 0 {
      assert Scaled(0, interval) == 0.0;
    } else {
      ClockAdvances(v, start, interval, i - 1);
      assert Slept(v, interval, i - 1);
      ScaledNext(i - 1, interval);
    }
  }

  /** The loop ends, at the first poll that gives a reason to stop and with that reason: no poll
      follows a reading above the budget, and nothing is killed without one. At most two polls more
      are made than intervals fit into the wall budget. */
  method AwaitExit(v: View, start: real, cpuBudget: int, wallBudget: Option<real>)
    returns (stop: Stop, polls: nat)
    requires Advances(v, start, Interval(cpuBudget))
    ensures polls > 0 && Stops(v, cpuBudget, Deadline(start, cpuBudget, wallBudget), polls - 1)
    ensures forall i :: 0 <= i < polls - 1 ==> !Stops(v, cpuBudget, Deadline(start, cpuBudget, wallBudget), i)
    ensures stop == WhyStopped(v, cpuBudget, polls - 1)
    ensures polls >= 2 ==> Scaled(polls - 2, Interval(cpuBudget)) <= Wall(cpuBudget, wallBudget)
  {
    var wall := 3.0 * cpuBudget as real;
    if wallBudget.Some? {
      wall := Min(wall, Max(1.0, wallBudget.value));
    }
    var deadline := start + wall;
    var interval := Max(0.5, Min(2.0, cpuBudget as real / 4.0));
    var base: Option<real> := None;
    var i := 0;
    while true
      invariant i >= 0
      invariant base == FirstReading(v, i)
      invariant forall k :: 0 <= k < i ==> !Stops(v, cpuBudget, deadline, k)
      invariant i > 0 ==> Scaled(i - 1, interval) <= wall
      decreases 2.0 * (deadline - v.clock(i))
    {
      polls := i + 1;
      if !v.running(i) {
        return Exited, polls;
      }
      var cpu := v.cpu(i);
      if cpu.Some? {
        if base.None? {
          base := cpu;
        } else if cpu.value - base.value > cpuBudget as real {
          return CpuExceeded, polls;
        }
      }
      if v.clock(i) > deadline {
        return WallExceeded, polls;
      }
      ClockAdvances(v, start, interval, i);
      assert Slept(v, interval, i);
      i := i + 1;
    }
  }

  lemma ScaledMonotone(j: nat, k: nat, interval: real)
    requires j <= k && interval > 0.0
    ensures Scaled(j, interval) <= Scaled(k, interval)
  {
    assert Scaled(k, interval) == Scaled(j, interval) + (k - j) as real * interval;
  }

  /** With a CPU budget of up to 8 seconds at most 14 polls are made; above, one and a half per
      second of the budget and two more. */
  lemma PollBound(cpuBudget: int, wallBudget: Option<real>, polls: nat)
    requires polls >= 2 ==> Scaled(polls - 2, Interval(cpuBudget)) <= Wall(cpuBudget, wallBudget)
    ensures cpuBudget <= 8 ==> polls <= 14
    ensures cpuBudget > 8 ==> 2 * polls <= 3 * cpuBudget + 4
  {
    var interval, cpu := Interval(cpuBudget), cpuBudget as real;
    assert Wall(cpuBudget, wallBudget) <= 3.0 * cpu;
    if polls >= 2 {
      if cpuBudget > 8 {
        assert interval == 2.0;
      } else if polls > 14 {
        ScaledMonotone(13, polls - 2, interval);
      }
    }
  }

  // ----- the budgets in numbers

  /** The wall budget is spent once three seconds a CPU second have passed, or what is left to the agent has,
      of which one second is always granted. */
  lemma DeadlineExactly(start: real, cpuBudget: int, wallBudget: Option<real>, now: real)
    ensures now > Deadline(start, cpuBudget, wallBudget)
            <==> || now - start > 3.0 * cpuBudget as real
                 || (wallBudget.Some? && now - start > wallBudget.value && now - start > 1.0)
  {
  }

  /** A quarter of the CPU budget between two polls, but no less than half a second and no more than two. */
  lemma IntervalExactly(cpuBudget: int)
    ensures cpuBudget <= 2 ==> Interval(cpuBudget) == 0.5
    ensures cpuBudget >= 8 ==> Interval(cpuBudget) == 2.0
    ensures 2 <= cpuBudget <= 8 ==> 4.0 * Interval(cpuBudget) == cpuBudget as real
  {
  }

  /** The earliest of the first `n` polls that could read the CPU. */
  predicate FirstRead(v: View, n: nat, k: nat) {
    k < n && v.cpu(k).Some? && forall j: nat :: j < k ==> v.cpu(j).None?
  }

  lemma {:induction false} FirstReadingExactly(v: View, n: nat)
    ensures FirstReading(v, n) == None <==> forall j: nat :: j < n ==> v.cpu(j).None?
    ensures forall k: nat :: FirstRead(v, n, k) ==> FirstReading(v, n) == v.cpu(k)
    ensures FirstReading(v, n).Some? ==> exists k: nat :: FirstRead(v, n, k)
  {
    if n > 0 {
      FirstReadingExactly(v, n - 1);
      forall k: nat | FirstRead(v, n, k) ensures FirstReading(v, n) == v.cpu(k) {
        assert k < n - 1 ==> FirstRead(v, n - 1, k);
      }
      if FirstReading(v, n - 1).Some? {
        var k: nat :| FirstRead(v, n - 1, k);
        assert FirstRead(v, n, k);
      } else if v.cpu(n - 1).Some? {
        assert FirstRead(v, n, n - 1);
      }
    }
  }

  /** More CPU than the budget has been used since the first poll that could read it, which is an earlier one. */
  ghost predicate Overused(v: View, cpuBudget: int, i: nat) {
    v.cpu(i).Some?
    && exists k: nat :: FirstRead(v, i, k) && v.cpu(i).value - v.cpu(k).value > cpuBudget as real
  }

  /** A poll stops the container, with this reason: it has exited; it runs and has overused its CPU; it runs, has
      not, and its wall budget is spent. */
  lemma StopsExactly(v: View, start: real, cpuBudget: int, wallBudget: Option<real>, i: nat)
    ensures var late := || v.clock(i) - start > 3.0 * cpuBudget as real
                        || (wallBudget.Some? && v.clock(i) - start > wallBudget.value && v.clock(i) - start > 1.0);
            && (Stops(v, cpuBudget, Deadline(start, cpuBudget, wallBudget), i)
                <==> !v.running(i) || Overused(v, cpuBudget, i) || late)
            && WhyStopped(v, cpuBudget, i)
               == if !v.running(i) then Exited else if Overused(v, cpuBudget, i) then CpuExceeded else WallExceeded
  {
    hide Deadline, FirstReading;
    DeadlineExactly(start, cpuBudget, wallBudget, v.clock(i));
    FirstReadingExactly(v, i);
    if Overspent(v, cpuBudget, i) {
      var k: nat :| FirstRead(v, i, k);
    }
  }
}
