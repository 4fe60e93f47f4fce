/**
 * The EC2 details components (app/aws/ec2-details/components.tsx): which of
 * the Start/Stop and Terminate buttons an instance's state enables, the
 * overview counters folded over the instance list, the monthly cost estimate
 * and the progress bar value shown for each state. States are compared after
 * lower-casing; a missing `State.Name` is `None`.
 */
module Ec2Details {
  import opened Prelude

  /** An instance as the client receives it: any field may be missing. */
  datatype InstanceView = InstanceView(id: string, instanceType: Option<string>, stateName: Option<string>)

  /** `state?.toLowerCase()` is one of the given names. */
  predicate LowerIn(state: Option<string>, names: set<string>) {
    state.Some? && Lower(state.value) in names
  }

  // ---------------------------------------------------------------------------
  // Button rules (InstancesTab)
  // ---------------------------------------------------------------------------

  /** Start is offered exactly for a stopped instance, in any letter case. */
  predicate CanStart(state: Option<string>): (b: bool)
    ensures b <==> state.Some? && Lower(state.value) == "stopped"
  {
    LowerIn(state, {"stopped"})
  }

  /** Stop is offered exactly for a running or pending instance, in any letter case. */
  predicate CanStop(state: Option<string>): (b: bool)
    ensures b <==> state.Some? && (Lower(state.value) == "running" || Lower(state.value) == "pending")
  {
    LowerIn(state, {"running", "pending"})
  }

  /** Terminate is offered unless the instance is terminated or shutting down; a missing state allows it. */
  predicate CanTerminate(state: Option<string>): (b: bool)
    ensures state.None? ==> b
    ensures state.Some? ==> (b <==> Lower(state.value) != "terminated" && Lower(state.value) != "shutting-down")
  {
    !LowerIn(state, {"terminated", "shutting-down"})
  }

  /** Start and Stop are never both offered. */
  lemma StartStopExclusive(state: Option<string>)
    ensures !(CanStart(state) && CanStop(state))
  {
    if state.Some? && Lower(state.value) == "stopped" {
      assert Lower(state.value)[1] == 't';
    }
  }

  /** The rules depend on the state only up to letter case. */
  lemma RulesIgnoreCase(s: string)
    ensures CanStart(Some(s)) == CanStart(Some(Lower(s)))
    ensures CanStop(Some(s)) == CanStop(Some(Lower(s)))
    ensures CanTerminate(Some(s)) == CanTerminate(Some(Lower(s)))
  {
    LowerIdempotent(s);
  }

  /** A missing state never enables Start or Stop but leaves Terminate enabled. */
  lemma MissingStateRules()
    ensures !CanStart(None) && !CanStop(None) && CanTerminate(None)
  {
  }

  datatype PowerRequest = RequestStop | RequestStart

  datatype PowerButton = PowerButton(disabled: bool, caption: string, onClick: PowerRequest)

  /** The combined Start/Stop button of an instance card. */
  function PowerButtonFor(state: Option<string>): (b: PowerButton)
    ensures b.disabled <==> !CanStart(state) && !CanStop(state)
    ensures b.onClick == RequestStop <==> b.caption == "Stop"
    ensures b.caption == (if CanStop(state) then "Stop" else "Start")
    ensures CanStop(state) ==> b.onClick == RequestStop
    ensures !CanStop(state) ==> b.onClick == RequestStart
  {
    var stop := CanStop(state);
    PowerButton(!CanStart(state) && !stop, if stop then "Stop" else "Start", if stop then RequestStop else RequestStart)
  }

  /** An enabled button asks to start only a stopped instance and to stop only a running or pending one. */
  lemma EnabledButtonRequests(state: Option<string>)
    requires !PowerButtonFor(state).disabled
    ensures PowerButtonFor(state).onClick == RequestStart ==> state.Some? && Lower(state.value) == "stopped"
    ensures PowerButtonFor(state).onClick == RequestStop ==>
      state.Some? && (Lower(state.value) == "running" || Lower(state.value) == "pending")
  {
  }

  // ---------------------------------------------------------------------------
  // Overview counters (OverviewTab)
  // ---------------------------------------------------------------------------

  /** Counted as running by the overview: lower-cased state running or pending. */
  predicate IsActive(inst: InstanceView) {
    LowerIn(inst.stateName, {"running", "pending"})
  }

  predicate TypeContains(inst: InstanceView, word: string) {
    inst.instanceType.Some? && Contains(inst.instanceType.value, word)
  }

  /** getTotalRunningInstances: the length of the filtered list. */
  function RunningCount(xs: seq<InstanceView>): (n: nat)
    ensures n <= |xs|
    ensures n == |xs| <==> forall i :: 0 <= i < |xs| ==> IsActive(xs[i])
  {
    if xs == [] then 0
    else
      var init := xs[..|xs| - 1];
      var rest := RunningCount(init);
      assert forall i :: 0 <= i < |init| ==> init[i] == xs[i];
      rest + if IsActive(xs[|xs| - 1]) then 1 else 0
  }

  /** Counting splits over a concatenation. */
  lemma {:induction false} RunningCountAppend(a: seq<InstanceView>, b: seq<InstanceView>)
    ensures RunningCount(a + b) == RunningCount(a) + RunningCount(b)
    decreases |b|
  {
    if b == [] {
      assert a + b == a;
    } else {
      assert (a + b)[..|a + b| - 1] == a + b[..|b| - 1];
      RunningCountAppend(a, b[..|b| - 1]);
    }
  }

  function CpuCount(inst: InstanceView): nat {
    if TypeContains(inst, "medium") then 2 else 1
  }

  /** getTotalCPUs: one vCPU per instance, two for a medium type. */
  function TotalCpus(xs: seq<InstanceView>): (n: nat)
    ensures |xs| <= n <= 2 * |xs|
  {
    if xs == [] then 0 else TotalCpus(xs[..|xs| - 1]) + CpuCount(xs[|xs| - 1])
  }

  /** The memory of one instance: the medium test is applied after the small one and wins. */
  function MemoryGb(inst: InstanceView): (gb: nat)
    ensures gb in {1, 2, 4}
    ensures TypeContains(inst, "medium") ==> gb == 4
    ensures gb == 2 <==> TypeContains(inst, "small") && !TypeContains(inst, "medium")
    ensures gb == 1 <==> !TypeContains(inst, "small") && !TypeContains(inst, "medium")
  {
    var memory := 1;
    var memory := if TypeContains(inst, "small") then 2 else memory;
    if TypeContains(inst, "medium") then 4 else memory
  }

  /** getTotalMemory. */
  function TotalMemory(xs: seq<InstanceView>): (n: nat)
    ensures |xs| <= n <= 4 * |xs|
  {
    if xs == [] then 0 else TotalMemory(xs[..|xs| - 1]) + MemoryGb(xs[|xs| - 1])
  }

  /** Hourly price of one instance, by the same small-then-medium tests. */
  function HourlyRate(inst: InstanceView): (rate: real)
    ensures rate == 0.0116 || rate == 0.023 || rate == 0.0464
    ensures TypeContains(inst, "medium") ==> rate == 0.0464
    ensures rate == 0.023 <==> TypeContains(inst, "small") && !TypeContains(inst, "medium")
    ensures rate == 0.0116 <==> !TypeContains(inst, "small") && !TypeContains(inst, "medium")
  {
    var rate := 0.0116;
    var rate := if TypeContains(inst, "small") then 0.023 else rate;
    if TypeContains(inst, "medium") then 0.0464 else rate
  }

  const HoursPerMonth: real := 24.0 * 30.0

  /** calculateCost before rounding: active instances at their monthly price, others free. */
  function MonthlyCost(xs: seq<InstanceView>): (c: real)
    ensures RunningCount(xs) as real * 0.0116 * HoursPerMonth <= c <= RunningCount(xs) as real * 0.0464 * HoursPerMonth
  {
    if xs == [] then 0.0
    else
      var last := xs[|xs| - 1];
      var rest := MonthlyCost(xs[..|xs| - 1]);
      if IsActive(last) then rest + HourlyRate(last) * 24.0 * 30.0 else rest
  }

  /** The estimate of two lists together is the sum of their estimates. */
  lemma {:induction false} MonthlyCostAppend(a: seq<InstanceView>, b: seq<InstanceView>)
    ensures MonthlyCost(a + b) == MonthlyCost(a) + MonthlyCost(b)
    decreases |b|
  {
    if b == [] {
      assert a + b == a;
    } else {
      assert (a + b)[..|a + b| - 1] == a + b[..|b| - 1];
      MonthlyCostAppend(a, b[..|b| - 1]);
    }
  }

  /** One instance costs its hourly rate for a 30-day month when running or pending, and nothing otherwise. */
  lemma MonthlyCostOne(x: InstanceView)
    ensures MonthlyCost([x]) == if IsActive(x) then HourlyRate(x) * HoursPerMonth else 0.0
  {
    assert [x][..0] == [];
  }

  /** An instance that is not running or pending adds nothing to the estimate of any list. */
  lemma InactiveCostNothing(a: seq<InstanceView>, x: InstanceView, b: seq<InstanceView>)
    requires !IsActive(x)
    ensures MonthlyCost(a + [x] + b) == MonthlyCost(a + b)
  {
    MonthlyCostAppend(a + [x], b);
    MonthlyCostAppend(a, [x]);
    MonthlyCostOne(x);
    MonthlyCostAppend(a, b);
  }

  /** A list with no running or pending instance costs nothing. */
  lemma {:induction false} NoActiveNoCost(xs: seq<InstanceView>)
    requires forall i :: 0 <= i < |xs| ==> !IsActive(xs[i])
    ensures MonthlyCost(xs) == 0.0
  {
    if xs != [] {
      var init := xs[..|xs| - 1];
      assert forall i :: 0 <= i < |init| ==> init[i] == xs[i];
      NoActiveNoCost(init);
    }
  }

  // ---------------------------------------------------------------------------
  // Progress bar (OverviewTab)
  // ---------------------------------------------------------------------------

  function StateProgress(state: Option<string>): (p: nat)
    ensures p == 100 <==> LowerIn(state, {"running"})
    ensures p == 75 <==> LowerIn(state, {"pending"})
    ensures p == 25 <==> LowerIn(state, {"stopping"})
    ensures p == 0 <==> !LowerIn(state, {"running", "pending", "stopping"})
  {
    if LowerIn(state, {"running"}) then 100
    else if LowerIn(state, {"pending"}) then 75
    else if LowerIn(state, {"stopping"}) then 25
    else if LowerIn(state, {"stopped"}) then 0
    else 0
  }

  /** The bar is at least three-quarters full exactly when the Stop button is offered. */
  lemma ProgressMatchesStop(state: Option<string>)
    ensures StateProgress(state) >= 75 <==> CanStop(state)
  {
  }
}
