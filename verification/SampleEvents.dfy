/** Telemetry samples that become events: a change between two fresh samples of one device, and nothing else. */
module SampleEvents {
  import opened Basics
  import opened Recency
  import opened PushTables

  datatype Reading = Percent(level: real) | State(on: bool)

  /** A sample with no value clears the baseline; a priming one only sets it. */
  datatype Sample = Sample(value: Option<Reading>, now: Time, prime: bool)

  type Baseline = Option<(Reading, Time)>

  const LOW: real := 20.0
  const FRESH_SECONDS: real := 30.0

  /** `_sample_message`: a battery falls to the low mark; a charger or valve switches. */
  predicate Crosses(kind: Kind, before: Reading, value: Reading) {
    if kind == LowBattery then before.Percent? && value.Percent? && before.level > LOW >= value.level
    else kind in {Ev, Water} && before != value
  }

  /** The baseline after a sample, and whether the sample is reported. */
  function Sampled(kind: Kind, base: Baseline, s: Sample): (Baseline, bool) {
    if s.value.None? then (None, false)
    else (
      Some((s.value.value, s.now)),
      !s.prime && base.Some? && 0.0 <= s.now - base.value.1 <= FRESH_SECONDS && Crosses(kind, base.value.0, s.value.value))
  }

  function BaselineAfter(kind: Kind, run: seq<Sample>): Baseline {
    if run == [] then None else Sampled(kind, BaselineAfter(kind, run[..|run| - 1]), run[|run| - 1]).0
  }

  predicate Reports(kind: Kind, run: seq<Sample>, i: nat)
    requires i < |run|
  {
    Sampled(kind, BaselineAfter(kind, run[..i]), run[i]).1
  }

  /** A battery that was above 20 percent and no longer is, or a charger or valve in another state. */
  ghost predicate IsNews(kind: Kind, before: Reading, value: Reading) {
    match kind
    case LowBattery => before.Percent? && value.Percent? && before.level > 20.0 && value.level <= 20.0
    case Ev => value != before
    case Water => value != before
    case _ => false
  }

  /** A sample is reported exactly when it and the one before it are known, at most 30 s apart, and it is news without priming. */
  lemma ReportIsFreshChange(kind: Kind, run: seq<Sample>, i: nat)
    requires i < |run|
    ensures Reports(kind, run, i) <==>
      && i > 0 && !run[i].prime && run[i].value.Some? && run[i - 1].value.Some?
      && 0.0 <= run[i].now - run[i - 1].now <= 30.0
      && IsNews(kind, run[i - 1].value.value, run[i].value.value)
  {
    if i > 0 {
      assert run[..i][..i - 1] == run[..i - 1] && run[..i][i - 1] == run[i - 1];
    }
  }

  /** Between two low-battery events there was a sample above 20 percent: the alert rearms only by recovering. */
  lemma LowBatteryRearms(run: seq<Sample>, i: nat, j: nat)
    requires i < j < |run| && Reports(LowBattery, run, i) && Reports(LowBattery, run, j)
    ensures exists k :: i < k < j && run[k].value.Some? && run[k].value.value.Percent? && run[k].value.value.level > 20.0
  {
    ReportIsFreshChange(LowBattery, run, i);
    ReportIsFreshChange(LowBattery, run, j);
    assert j - 1 > i;
  }

  /** Between two reports of one state there was a sample of the other. */
  lemma StatesAlternate(kind: Kind, run: seq<Sample>, i: nat, j: nat)
    requires i < j < |run| && kind in {Ev, Water} && Reports(kind, run, i) && Reports(kind, run, j)
    requires forall k :: 0 <= k < |run| && run[k].value.Some? ==> run[k].value.value.State?
    requires run[i].value == run[j].value
    ensures exists k :: i < k < j && run[k].value.Some? && run[k].value.value.on != run[j].value.value.on
  {
    ReportIsFreshChange(kind, run, i);
    ReportIsFreshChange(kind, run, j);
    assert j - 1 > i;
  }
}
