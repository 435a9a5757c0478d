/**
  The host pressure sampler of `src-tauri/src/host_pressure.rs`: a hysteresis machine over
  counters, specified by the whole history of samples it has seen.
 */
module HostPressure {
  import opened Common

  const ENTER_SAMPLES := 2
  const EXIT_SAMPLES := 3
  const MIB := 1024 * 1024
  const MAX_U64: nat := 0xFFFF_FFFF_FFFF_FFFF

  // One observation; a counter the sampler could not read is None.
  datatype Sample = Sample(
    memoryLoadPercent: Option<nat>,
    availableMemoryBytes: Option<nat>,
    availableCommitBytes: Option<nat>,
    cpuLoadPercent: Option<nat>,
    schedulerLatenessMs: nat)

  datatype Reason = SchedulerLateness | CpuLoad | MemoryLoad | CommitAvailable | PhysicalMemoryAvailable

  // The metric `reason` names is past its entry threshold.
  predicate Exceeded(s: Sample, reason: Reason) {
    match reason
    case SchedulerLateness => s.schedulerLatenessMs >= 1500
    case CpuLoad => s.cpuLoadPercent.Some? && s.cpuLoadPercent.value >= 95
    case MemoryLoad => s.memoryLoadPercent.Some? && s.memoryLoadPercent.value >= 95
    case CommitAvailable => s.availableCommitBytes.Some? && s.availableCommitBytes.value <= 512 * MIB
    case PhysicalMemoryAvailable => s.availableMemoryBytes.Some? && s.availableMemoryBytes.value <= 512 * MIB
  }

  predicate OverEnterThreshold(s: Sample) {
    Exceeded(s, MemoryLoad) || Exceeded(s, PhysicalMemoryAvailable) || Exceeded(s, CommitAvailable)
    || Exceeded(s, CpuLoad) || Exceeded(s, SchedulerLateness)
  }

  predicate UnderExitThreshold(s: Sample) {
    && (s.memoryLoadPercent.Some? ==> s.memoryLoadPercent.value <= 90)
    && (s.availableMemoryBytes.Some? ==> s.availableMemoryBytes.value >= 1024 * MIB)
    && (s.availableCommitBytes.Some? ==> s.availableCommitBytes.value >= 1024 * MIB)
    && (s.cpuLoadPercent.Some? ==> s.cpuLoadPercent.value <= 85)
    && s.schedulerLatenessMs <= 500
  }

  function ReasonOf(s: Sample): Reason {
    if Exceeded(s, SchedulerLateness) then SchedulerLateness
    else if Exceeded(s, CpuLoad) then CpuLoad
    else if Exceeded(s, MemoryLoad) then MemoryLoad
    else if Exceeded(s, CommitAvailable) then CommitAvailable
    else PhysicalMemoryAvailable
  }

  // Where the bands lie: pressure is entered by any one gauge and left only by all together, at
  // 95 and 90 percent of memory, 512 MiB and 1 GiB left, 95 and 85 percent of CPU, 1.5 and 0.5
  // seconds of lateness; a gauge that could not be read neither enters nor keeps.
  lemma WhereTheBandsLie(memory: Option<nat>, left: Option<nat>, commit: Option<nat>, cpu: Option<nat>, late: nat)
    ensures var s := Sample(memory, left, commit, cpu, late);
            && (OverEnterThreshold(s) <==>
                  || late > 1499
                  || (memory.Some? && memory.value > 94) || (cpu.Some? && cpu.value > 94)
                  || (left.Some? && left.value < 0x2000_0001) || (commit.Some? && commit.value < 0x2000_0001))
            && (UnderExitThreshold(s) <==>
                  && late < 501
                  && (memory.None? || memory.value < 91) && (cpu.None? || cpu.value < 86)
                  && (left.None? || left.value > 0x3FFF_FFFF) && (commit.None? || commit.value > 0x3FFF_FFFF))
  {
  }

  // Of several gauges the first in this order is the reason: lateness, CPU, memory, commit, and
  // physical memory last.
  lemma WhichReason(s: Sample)
    requires OverEnterThreshold(s)
    ensures ReasonOf(s) == SchedulerLateness <==> s.schedulerLatenessMs >= 1500
    ensures ReasonOf(s) == PhysicalMemoryAvailable ==> forall r :: Exceeded(s, r) ==> r == PhysicalMemoryAvailable
    ensures ReasonOf(s) == CommitAvailable ==> forall r :: Exceeded(s, r) ==> r == CommitAvailable || r == PhysicalMemoryAvailable
    ensures ReasonOf(s) == MemoryLoad ==> forall r :: Exceeded(s, r) ==> r != SchedulerLateness && r != CpuLoad
    ensures ReasonOf(s) == CpuLoad ==> !Exceeded(s, SchedulerLateness)
  {
  }

  // The bands do not overlap, and over the entry threshold the reason is a real one.
  lemma ThresholdsAreApart(s: Sample)
    ensures !(OverEnterThreshold(s) && UnderExitThreshold(s))
    ensures OverEnterThreshold(s) <==> Exceeded(s, ReasonOf(s))
  {
  }

  // --- the specification over a history -------------------------------------------------------

  type History = seq<Sample>

  // Two samples in a row over the entry threshold, the second at `i`.
  predicate Pair(h: History, i: int) {
    1 <= i < |h| && OverEnterThreshold(h[i]) && OverEnterThreshold(h[i - 1])
  }

  // Three samples in a row under the exit threshold, the third at `i`.
  predicate Triple(h: History, i: int) {
    2 <= i < |h| && UnderExitThreshold(h[i]) && UnderExitThreshold(h[i - 1]) && UnderExitThreshold(h[i - 2])
  }

  // There was a pair, and no triple since.
  ghost predicate UnderPressure(h: History) {
    exists i :: Pair(h, i) && forall j :: j > i ==> !Triple(h, j)
  }

  ghost predicate LastOver(h: History, i: int) {
    0 <= i < |h| && OverEnterThreshold(h[i]) && forall j :: i < j < |h| ==> !OverEnterThreshold(h[j])
  }

  // How many of the last samples in a row are over, or under.
  function OverRun(h: History): nat {
    if h != [] && OverEnterThreshold(h[|h| - 1]) then 1 + OverRun(h[..|h| - 1]) else 0
  }

  function UnderRun(h: History): nat {
    if h != [] && UnderExitThreshold(h[|h| - 1]) then 1 + UnderRun(h[..|h| - 1]) else 0
  }

  lemma RunsAndGroups(h: History)
    ensures OverRun(h) >= 2 <==> Pair(h, |h| - 1)
    ensures UnderRun(h) >= 3 <==> Triple(h, |h| - 1)
    ensures UnderRun(h) > 0 ==> OverRun(h) == 0
  {
    if |h| >= 2 {
      var g := h[..|h| - 1];
      assert g[..|g| - 1] == h[..|h| - 2];
      if |h| >= 3 {
        var f := h[..|h| - 2];
        assert f[|f| - 1] == h[|h| - 3];
      }
    }
  }

  // One more sample turns pressure on with a pair, off with a triple, and keeps it otherwise.
  lemma PressureStep(h: History, s: Sample)
    ensures var h' := h + [s];
            UnderPressure(h') <==>
              Pair(h', |h|) || (UnderPressure(h) && !Triple(h', |h|))
  {
    var h' := h + [s];
    assert forall i :: i < |h| ==> (Pair(h', i) <==> Pair(h, i)) && (Triple(h', i) <==> Triple(h, i));
    if Pair(h', |h|) {
      assert forall j :: j > |h| ==> !Triple(h', j);
    } else if UnderPressure(h) && !Triple(h', |h|) {
      var i :| Pair(h, i) && forall j :: j > i ==> !Triple(h, j);
      assert Pair(h', i);
      forall j | j > i ensures !Triple(h', j) {
        assert j < |h| ==> !Triple(h, j);
      }
    }
  }

  // Pressure starts with a pair, whose last sample is not under; so a triple ends it only
  // with three fresh samples.
  lemma PressureNeedsAPair(h: History)
    requires UnderPressure(h)
    ensures UnderRun(h) < 3 && exists i :: LastOver(h, i)
  {
    RunsAndGroups(h);
    var i :| Pair(h, i) && forall j :: j > i ==> !Triple(h, j);
    ThresholdsAreApart(h[i]);
    LastOverExists(h, i);
  }

  lemma {:induction false} LastOverExists(h: History, i: int)
    requires 0 <= i < |h| && OverEnterThreshold(h[i])
    ensures exists k :: LastOver(h, k)
    decreases |h| - i
  {
    if j :| i < j < |h| && OverEnterThreshold(h[j]) {
      LastOverExists(h, j);
    } else {
      assert LastOver(h, i);
    }
  }

  // The latest over sample, one sample later.
  lemma LastOverAfter(h: History, s: Sample)
    ensures OverEnterThreshold(s) ==> LastOver(h + [s], |h|)
    ensures !OverEnterThreshold(s) ==> forall i :: LastOver(h, i) ==> LastOver(h + [s], i) && (h + [s])[i] == h[i]
  {
  }

  // --- the machine --------------------------------------------------------------------------------

  class HostPressureState {
    var active: bool
    var reason: Option<Reason>
    var last: Option<Sample>   // the metrics of the snapshot
    var samples: nat
    var enterSamples: nat
    var exitSamples: nat
    ghost var history: History

    // The counters count the samples at the end of the history, and the snapshot says what
    // the specification says.
    ghost predicate Valid()
      reads this
    {
      && (active <==> UnderPressure(history))
      && (active ==> enterSamples == 0 && exitSamples == UnderRun(history) && exitSamples < EXIT_SAMPLES)
      && (!active ==> exitSamples == 0 && enterSamples == OverRun(history) && enterSamples < ENTER_SAMPLES)
      && (reason.Some? <==> active)
      && (active ==> exists i :: LastOver(history, i) && reason == Some(ReasonOf(history[i])))
      && samples == (if |history| <= MAX_U64 then |history| else MAX_U64)
      && last == (if history == [] then None else Some(history[|history| - 1]))
    }

    constructor ()
      ensures Valid() && history == []
    {
      active, reason, last, samples, enterSamples, exitSamples := false, None, None, 0, 0, 0;
      history := [];
    }

    method Observe(s: Sample) returns (pressure: bool)
      requires Valid()
      modifies this
      ensures Valid() && history == old(history) + [s]
      ensures pressure <==> UnderPressure(history)
    {
      ghost var h := history;
      PressureStep(h, s);
      RunsAndGroups(h + [s]);
      ThresholdsAreApart(s);
      assert (h + [s])[..|h|] == h;
      if active { PressureNeedsAPair(h); }
      var over := OverEnterThreshold(s);
      var under := UnderExitThreshold(s);
      if active {
        enterSamples := 0;
        if under {
          exitSamples := exitSamples + 1;
          if exitSamples >= EXIT_SAMPLES {
            active := false;
            reason := None;
            exitSamples := 0;
          }
        } else {
          exitSamples := 0;
          if over {
            reason := Some(ReasonOf(s));
          }
        }
      } else if over {
        enterSamples := enterSamples + 1;
        if enterSamples >= ENTER_SAMPLES {
          active := true;
          reason := Some(ReasonOf(s));
          enterSamples := 0;
          exitSamples := 0;
        }
      } else {
        enterSamples := 0;
      }
      last := Some(s);
      samples := if samples < MAX_U64 then samples + 1 else MAX_U64;
      history := history + [s];
      LastOverAfter(h, s);
      pressure := active;
    }
  }

  // After any run of the sampler the snapshot is what the history says.
  method Run(h: History) returns (state: HostPressureState)
    ensures fresh(state) && state.history == h
    ensures state.active <==> UnderPressure(h)
    ensures state.active ==> exists i :: LastOver(h, i) && state.reason == Some(ReasonOf(h[i])) && Exceeded(h[i], ReasonOf(h[i]))
    ensures !state.active ==> state.reason == None
  {
    state := new HostPressureState();
    for i := 0 to |h|
      invariant fresh(state) && state.Valid() && state.history == h[..i]
    {
      var _ := state.Observe(h[i]);
      assert h[..i + 1] == h[..i] + [h[i]];
    }
    assert h[..|h|] == h;
    ReasonsHold(h);
  }

  // What a reason names was exceeded.
  lemma ReasonsHold(h: History)
    ensures forall i :: LastOver(h, i) ==> Exceeded(h[i], ReasonOf(h[i]))
  {
    forall i | LastOver(h, i)
      ensures Exceeded(h[i], ReasonOf(h[i]))
    {
      ThresholdsAreApart(h[i]);
    }
  }

  // --- CPU load ------------------------------------------------------------------------------------

  datatype CpuCounters = CpuCounters(idle: nat, kernel: nat, user: nat)

  function Quotient(n: nat, d: nat): (q: nat)
    requires d > 0
    ensures q * d <= n < q * d + d
  {
    assert n == n / d * d + n % d;
    n / d
  }

  // Kernel time includes idle time.
  function CpuLoadFromDeltas(previous: CpuCounters, current: CpuCounters): Option<nat> {
    if current.idle < previous.idle || current.kernel < previous.kernel || current.user < previous.user then None
    else
      var idle := current.idle - previous.idle;
      var total := (current.kernel - previous.kernel) + (current.user - previous.user);
      if total > MAX_U64 || total == 0 || idle > total then None
      else
        var scaled := (total - idle) * 100;
        var share := Quotient(if scaled > MAX_U64 then MAX_U64 else scaled, total);
        Some(if share < 100 then share else 100)
  }

  // There is no reading exactly when a counter went back, or the total is nothing, too large or
  // less than the idle time.
  lemma NoCpuLoad(previous: CpuCounters, current: CpuCounters)
    ensures var idle, total := current.idle - previous.idle, (current.kernel - previous.kernel) + (current.user - previous.user);
            CpuLoadFromDeltas(previous, current).None? <==>
              || idle < 0 || current.kernel < previous.kernel || current.user < previous.user
              || total == 0 || total >= 0x1_0000_0000_0000_0000 || idle > total
  {
  }

  // A reported load never exceeds the true busy share, and it is that share rounded down as
  // long as a hundredfold of the busy time fits into 64 bits; beyond that the hundredfold counts
  // as the largest number that does.
  lemma CpuLoadIsTheBusyShare(previous: CpuCounters, current: CpuCounters)
    requires CpuLoadFromDeltas(previous, current).Some?
    ensures var total := (current.kernel - previous.kernel) + (current.user - previous.user);
            var busy := total - (current.idle - previous.idle);
            var load := CpuLoadFromDeltas(previous, current).value;
            && load <= 100 && load * total <= 100 * busy
            && (100 * busy < 0x1_0000_0000_0000_0000 ==> 100 * busy < (load + 1) * total)
            && (100 * busy >= 0x1_0000_0000_0000_0000 ==> load * total < 0x1_0000_0000_0000_0000 <= (load + 1) * total)
  {
    var total := (current.kernel - previous.kernel) + (current.user - previous.user);
    var busy := total - (current.idle - previous.idle);
    RoundedDown(busy, total, if busy * 100 > MAX_U64 then MAX_U64 else busy * 100);
  }

  lemma RoundedDown(busy: nat, total: nat, scaled: nat)
    requires 0 < total && busy <= total && scaled <= 100 * busy
    ensures var share := Quotient(scaled, total); share <= 100 && share * total <= scaled < (share + 1) * total
  {
    var share := Quotient(scaled, total);
    assert share > 100 ==> share * total >= 101 * total;
  }
}
