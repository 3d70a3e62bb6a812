/** The diagnostics panel (Diagnostics.tsx): six tests that a run first resets to
    pending and then runs one by one, each going to running and then to a result fixed
    by its id and one random draw; the pass, warning and failure counts and the
    recommendations shown once every test has a result. The draw is a parameter: an
    index into the list of outcomes the source picks from. */
module Diagnostics {
  import opened Text

  datatype Status = Pending | Running | Passed | Failed | Warning

  /** The six test ids. */
  datatype TestId = Power | Thermal | Connectivity | Safety | Communication | Battery

  /** The id as the panel spells it. */
  function IdText(id: TestId): string {
    match id
    case Power => "power"
    case Thermal => "thermal"
    case Connectivity => "connectivity"
    case Safety => "safety"
    case Communication => "communication"
    case Battery => "battery"
  }

  /** One test of the panel. `details` is absent until the test has run once. */
  datatype DiagnosticTest =
    DiagnosticTest(id: TestId, name: string, description: string, status: Status, details: Option<string>)

  /** The outcome of running one test. */
  datatype TestOutcome = TestOutcome(status: Status, details: string)

  /** The list a draw indexes: three passes, a warning and a failure. */
  const Outcomes: seq<Status> := [Passed, Passed, Passed, Warning, Failed]

  predicate IsCompleted(s: Status) {
    s == Passed || s == Failed || s == Warning
  }

  const ThermalWarningDetails: string :=
    "Temperature slightly elevated at 42°C. Consider improving ventilation."
  const ThermalPassedDetails: string := "Thermal management systems functioning correctly."
  const CommunicationFailedDetails: string :=
    "Unable to establish communication with vehicle. Check connection."
  const CommunicationPassedDetails: string := "Vehicle communication protocols functioning normally."
  const PowerDetails: string :=
    "All power systems operating within normal parameters. Voltage: 240.1V, Current: 32.4A"
  const ConnectivityDetails: string := "Strong WiFi signal (-45 dBm), cloud connectivity established."
  const SafetyDetails: string := "All safety systems operational. Ground fault protection active."
  const BatteryDetails: string := "Internal backup battery at 95% capacity. Estimated runtime: 2.5 hours."

  /** The six tests as the panel first shows them, all pending. */
  const InitialTests: seq<DiagnosticTest> := [
    DiagnosticTest(Power, "Power System",
      "Check voltage, current, and power delivery systems", Pending, None),
    DiagnosticTest(Thermal, "Thermal Management",
      "Verify temperature sensors and cooling systems", Pending, None),
    DiagnosticTest(Connectivity, "Network Connectivity",
      "Test WiFi, cellular, and cloud connectivity", Pending, None),
    DiagnosticTest(Safety, "Safety Systems",
      "Verify ground fault protection and emergency stops", Pending, None),
    DiagnosticTest(Communication, "Vehicle Communication",
      "Test communication protocols with connected vehicle", Pending, None),
    DiagnosticTest(Battery, "Internal Battery",
      "Check backup battery and power management", Pending, None)
  ]

  /** The result switch of `runDiagnostics`: the status and details of test `id` when
      the draw is `draw`. */
  function TestResult(id: TestId, draw: nat): (r: TestOutcome)
    requires draw < |Outcomes|
    ensures IsCompleted(r.status)
    ensures id != Thermal && id != Communication ==> r.status == Passed
  {
    match id
    case Power => TestOutcome(Passed, PowerDetails)
    case Thermal =>
      var s := Outcomes[draw];
      if s == Warning then TestOutcome(s, ThermalWarningDetails)
      else TestOutcome(s, ThermalPassedDetails)
    case Connectivity => TestOutcome(Passed, ConnectivityDetails)
    case Safety => TestOutcome(Passed, SafetyDetails)
    case Communication =>
      var s := if Outcomes[draw] == Failed then Failed else Passed;
      if s == Failed then TestOutcome(s, CommunicationFailedDetails)
      else TestOutcome(s, CommunicationPassedDetails)
    case Battery => TestOutcome(Passed, BatteryDetails)
  }

  /** A test after it has run with draw `draw`: its result replaces status and details;
      id, name and description stay. */
  function Finished(t: DiagnosticTest, draw: nat): (u: DiagnosticTest)
    requires draw < |Outcomes|
    ensures u.id == t.id && u.name == t.name && u.description == t.description
    ensures IsCompleted(u.status) && u.details.Some?
  {
    var r := TestResult(t.id, draw);
    t.(status := r.status, details := Some(r.details))
  }

  // ---------------------------------------------------------------------------
  // The outcome switch

  /** The thermal test reports the draw itself, with the "slightly elevated" details
      exactly when that is a warning. */
  lemma ThermalFollowsDraw(draw: nat)
    requires draw < |Outcomes|
    ensures TestResult(Thermal, draw).status == Outcomes[draw]
    ensures TestResult(Thermal, draw).details == ThermalWarningDetails
            <==> TestResult(Thermal, draw).status == Warning
  {
    assert ThermalPassedDetails != ThermalWarningDetails by {
      assert |ThermalPassedDetails| != |ThermalWarningDetails|;
    }
  }

  /** The communication test fails exactly when the draw is a failure and never warns;
      its failure details come exactly with a failure. */
  lemma CommunicationFailsOnFailedDraw(draw: nat)
    requires draw < |Outcomes|
    ensures TestResult(Communication, draw).status == Failed <==> Outcomes[draw] == Failed
    ensures TestResult(Communication, draw).status != Warning
    ensures TestResult(Communication, draw).details == CommunicationFailedDetails
            <==> TestResult(Communication, draw).status == Failed
  {
    assert CommunicationPassedDetails != CommunicationFailedDetails by {
      assert |CommunicationPassedDetails| != |CommunicationFailedDetails|;
    }
  }

  /** Which draws give which outcome: the last is the only failure, the one before it
      the only warning. */
  lemma OutcomeOfDraw(draw: nat)
    requires draw < |Outcomes|
    ensures Outcomes[draw] == Failed <==> draw == 4
    ensures Outcomes[draw] == Warning <==> draw == 3
    ensures Outcomes[draw] == Passed <==> draw < 3
  {
  }

  // ---------------------------------------------------------------------------
  // Counting (the `filter(...).length` of the panel)

  /** How many tests have status `s`. */
  function CountStatus(ts: seq<DiagnosticTest>, s: Status): (n: nat)
    ensures n <= |ts|
    decreases |ts|
  {
    if |ts| == 0 then 0
    else (if ts[0].status == s then 1 else 0) + CountStatus(ts[1..], s)
  }

  /** How many tests have a result. */
  function CountCompleted(ts: seq<DiagnosticTest>): (n: nat)
    ensures n <= |ts|
    decreases |ts|
  {
    if |ts| == 0 then 0
    else (if IsCompleted(ts[0].status) then 1 else 0) + CountCompleted(ts[1..])
  }

  /** The three result filters are disjoint and together make up the completed filter. */
  lemma {:induction false} CompletedIsSum(ts: seq<DiagnosticTest>)
    ensures CountCompleted(ts)
            == CountStatus(ts, Passed) + CountStatus(ts, Failed) + CountStatus(ts, Warning)
    decreases |ts|
  {
    if |ts| > 0 {
      CompletedIsSum(ts[1..]);
    }
  }

  /** Every test is complete exactly when the completed count is the number of tests. */
  lemma {:induction false} AllCompletedIff(ts: seq<DiagnosticTest>)
    ensures CountCompleted(ts) == |ts| <==> forall k :: 0 <= k < |ts| ==> IsCompleted(ts[k].status)
    decreases |ts|
  {
    if |ts| > 0 {
      AllCompletedIff(ts[1..]);
      assert forall k :: 1 <= k < |ts| ==> ts[k] == ts[1..][k - 1];
    }
  }

  /** The progress summary shows once some test has a result: the completed count is
      zero exactly when no test is complete, as right after the reset. */
  lemma {:induction false} NoneCompletedIff(ts: seq<DiagnosticTest>)
    ensures CountCompleted(ts) == 0 <==> forall k :: 0 <= k < |ts| ==> !IsCompleted(ts[k].status)
    decreases |ts|
  {
    if |ts| > 0 {
      NoneCompletedIff(ts[1..]);
      assert forall k :: 1 <= k < |ts| ==> ts[k] == ts[1..][k - 1];
    }
  }

  /** Counting splits over concatenation. */
  lemma {:induction false} CountAppend(a: seq<DiagnosticTest>, b: seq<DiagnosticTest>, s: Status)
    ensures CountStatus(a + b, s) == CountStatus(a, s) + CountStatus(b, s)
    decreases |a|
  {
    if |a| > 0 {
      assert (a + b)[0] == a[0];
      assert (a + b)[1..] == a[1..] + b;
      CountAppend(a[1..], b, s);
      assert CountStatus(a + b, s)
             == (if a[0].status == s then 1 else 0) + CountStatus(a[1..] + b, s);
    } else {
      assert a + b == b;
    }
  }

  // ---------------------------------------------------------------------------
  // Recommendations

  datatype Recommendation = CriticalIssues | OptimizationOpportunities | ExcellentHealth

  function RecommendationTitle(r: Recommendation): string {
    match r
    case CriticalIssues => "Critical Issues Detected"
    case OptimizationOpportunities => "Optimization Opportunities"
    case ExcellentHealth => "Excellent System Health"
  }

  /** The recommendations panel: shown only when every test has a result and no run is
      in progress; then a failure calls for attention, a warning for optimisation, and
      neither for a clean bill of health. */
  function Recommendations(ts: seq<DiagnosticTest>, isRunning: bool): (rs: seq<Recommendation>)
  {
    if CountCompleted(ts) == |ts| && !isRunning then
      (if CountStatus(ts, Failed) > 0 then [CriticalIssues] else [])
      + (if CountStatus(ts, Warning) > 0 then [OptimizationOpportunities] else [])
      + (if CountStatus(ts, Failed) == 0 && CountStatus(ts, Warning) == 0 then [ExcellentHealth] else [])
    else []
  }

  /** Each recommendation appears exactly under its condition, and a shown panel is
      never empty: the healthy verdict excludes the other two. */
  lemma RecommendationsIff(ts: seq<DiagnosticTest>, isRunning: bool)
    ensures var shown := CountCompleted(ts) == |ts| && !isRunning;
            var rs := Recommendations(ts, isRunning);
            (CriticalIssues in rs <==> shown && CountStatus(ts, Failed) > 0)
            && (OptimizationOpportunities in rs <==> shown && CountStatus(ts, Warning) > 0)
            && (ExcellentHealth in rs <==>
                  shown && CountStatus(ts, Failed) == 0 && CountStatus(ts, Warning) == 0)
            && (shown <==> |rs| > 0)
            && (ExcellentHealth in rs ==> rs == [ExcellentHealth])
  {
  }

  // ---------------------------------------------------------------------------
  // The panel

  /** The tests keep the ids, names and descriptions of the initial six. */
  predicate SameTests(ts: seq<DiagnosticTest>) {
    |ts| == |InitialTests|
    && forall k :: 0 <= k < |ts| ==>
         ts[k].id == InitialTests[k].id && ts[k].name == InitialTests[k].name
         && ts[k].description == InitialTests[k].description
  }

  /** All tests after a run with the given draws. */
  function FinishAll(ts: seq<DiagnosticTest>, draws: seq<nat>): (us: seq<DiagnosticTest>)
    requires |draws| == |ts| && forall k :: 0 <= k < |draws| ==> draws[k] < |Outcomes|
    ensures |us| == |ts|
    ensures forall k :: 0 <= k < |ts| ==> us[k] == Finished(ts[k], draws[k])
  {
    seq(|ts|, k requires 0 <= k < |ts| => Finished(ts[k], draws[k]))
  }

  /** After a full run of the six tests: all are complete; the thermal draw alone decides
      the warnings; the thermal and communication draws alone decide the failures; so
      there is at most one warning and at most two failures, and the recommendations
      are shown. */
  lemma RunCounts(ts: seq<DiagnosticTest>, draws: seq<nat>)
    requires SameTests(ts)
    requires |draws| == |ts| && forall k :: 0 <= k < |draws| ==> draws[k] < |Outcomes|
    ensures var us := FinishAll(ts, draws);
            CountCompleted(us) == |us|
            && CountStatus(us, Warning) == (if draws[1] == 3 then 1 else 0)
            && CountStatus(us, Failed) == (if draws[1] == 4 then 1 else 0) + (if draws[4] == 4 then 1 else 0)
            && CountStatus(us, Warning) <= 1 && CountStatus(us, Failed) <= 2
            && |Recommendations(us, false)| > 0
  {
    var us := FinishAll(ts, draws);
    AllCompletedIff(us);
    RunStatuses(ts, draws);
    OutcomeOfDraw(draws[1]);
    OutcomeOfDraw(draws[4]);
    CountsOfSix(us, Warning);
    CountsOfSix(us, Failed);
    RecommendationsIff(us, false);
  }

  /** The status of each of the six tests after a run. */
  lemma RunStatuses(ts: seq<DiagnosticTest>, draws: seq<nat>)
    requires SameTests(ts)
    requires |draws| == |ts| && forall k :: 0 <= k < |draws| ==> draws[k] < |Outcomes|
    ensures var us := FinishAll(ts, draws);
            us[0].status == Passed && us[2].status == Passed && us[3].status == Passed
            && us[5].status == Passed
            && us[1].status == Outcomes[draws[1]]
            && (us[4].status == Failed <==> Outcomes[draws[4]] == Failed)
            && us[4].status != Warning
  {
    assert ts[0].id == Power && ts[2].id == Connectivity && ts[3].id == Safety;
    assert ts[5].id == Battery && ts[1].id == Thermal && ts[4].id == Communication;
    ThermalFollowsDraw(draws[1]);
    CommunicationFailsOnFailedDraw(draws[4]);
  }

  /** Counting over six tests, test by test. */
  lemma CountsOfSix(us: seq<DiagnosticTest>, s: Status)
    requires |us| == 6
    ensures CountStatus(us, s)
            == (if us[0].status == s then 1 else 0) + (if us[1].status == s then 1 else 0)
               + (if us[2].status == s then 1 else 0) + (if us[3].status == s then 1 else 0)
               + (if us[4].status == s then 1 else 0) + (if us[5].status == s then 1 else 0)
  {
    CountFrom(us, 5, s);
    CountFrom(us, 4, s);
    CountFrom(us, 3, s);
    CountFrom(us, 2, s);
    CountFrom(us, 1, s);
    CountFrom(us, 0, s);
    assert us[6..] == [];
    assert us[0..] == us;
  }

  /** Counting from index `k` is the test at `k` and the count after it. */
  lemma CountFrom(us: seq<DiagnosticTest>, k: nat, s: Status)
    requires k < |us|
    ensures CountStatus(us[k..], s) == (if us[k].status == s then 1 else 0) + CountStatus(us[k + 1..], s)
  {
    assert us[k..][1..] == us[k + 1..];
  }

  class DiagnosticsPanel {
    var tests: array<DiagnosticTest>
    var isRunning: bool

    predicate Valid()
      reads this, tests
    {
      SameTests(tests[..])
    }

    /** The panel as first shown: the six tests, pending, and no run in progress. */
    constructor ()
      ensures Valid() && fresh(tests)
      ensures tests[..] == InitialTests && !isRunning
    {
      tests := new DiagnosticTest[|InitialTests|](k requires 0 <= k < |InitialTests| => InitialTests[k]);
      isRunning := false;
    }

    /** The first step of a run: every test back to pending, details kept. */
    method Reset()
      requires Valid()
      modifies tests
      ensures Valid()
      ensures forall k :: 0 <= k < tests.Length ==> tests[k] == old(tests[k]).(status := Pending)
    {
      var i := 0;
      while i < tests.Length
        invariant 0 <= i <= tests.Length
        invariant forall k :: 0 <= k < i ==> tests[k] == old(tests[k]).(status := Pending)
        invariant forall k :: i <= k < tests.Length ==> tests[k] == old(tests[k])
      {
        tests[i] := tests[i].(status := Pending);
        i := i + 1;
      }
    }

    /** One iteration of the run: test `i` goes to running, then to its result; no other
        test changes. */
    method RunTest(i: nat, draw: nat)
      requires Valid() && i < tests.Length && draw < |Outcomes|
      modifies tests
      ensures Valid()
      ensures tests[i] == Finished(old(tests[i]), draw)
      ensures forall k :: 0 <= k < tests.Length && k != i ==> tests[k] == old(tests[k])
    {
      tests[i] := tests[i].(status := Running);
      var r := TestResult(tests[i].id, draw);
      tests[i] := tests[i].(status := r.status, details := Some(r.details));
    }

    /** `runDiagnostics`, with one draw per test. A run cannot start while one is in
        progress (the button is disabled). Afterwards every test holds its result and
        the flag is down. */
    method RunDiagnostics(draws: seq<nat>)
      requires Valid() && !isRunning
      requires |draws| == tests.Length && forall k :: 0 <= k < |draws| ==> draws[k] < |Outcomes|
      modifies this, tests
      ensures Valid() && !isRunning && tests == old(tests)
      ensures tests[..] == FinishAll(old(tests[..]), draws)
    {
      isRunning := true;
      Reset();
      var i := 0;
      while i < tests.Length
        invariant Valid() && 0 <= i <= tests.Length && tests == old(tests)
        invariant forall k :: 0 <= k < i ==> tests[k] == Finished(old(tests[k]), draws[k])
        invariant forall k :: i <= k < tests.Length ==> tests[k] == old(tests[k]).(status := Pending)
      {
        RunTest(i, draws[i]);
        i := i + 1;
      }
      isRunning := false;
    }

    /** The counts the panel shows: passed, warnings, failed. */
    function Counts(): (c: (nat, nat, nat))
      reads this, tests
      ensures c.0 + c.1 + c.2 == CountCompleted(tests[..])
    {
      CompletedIsSum(tests[..]);
      (CountStatus(tests[..], Passed), CountStatus(tests[..], Warning), CountStatus(tests[..], Failed))
    }
  }

  /** A run on a fresh panel ends with the recommendations shown. */
  method RunOnFreshPanel(draws: seq<nat>) returns (results: seq<DiagnosticTest>, recs: seq<Recommendation>)
    requires |draws| == |InitialTests| && forall k :: 0 <= k < |draws| ==> draws[k] < |Outcomes|
    ensures results == FinishAll(InitialTests, draws)
    ensures CountCompleted(results) == |results| && |recs| > 0
    ensures ExcellentHealth in recs <==> draws[1] < 3 && draws[4] < 4
  {
    var panel := new DiagnosticsPanel();
    panel.RunDiagnostics(draws);
    results := panel.tests[..];
    recs := Recommendations(results, panel.isRunning);
    RunCounts(InitialTests, draws);
    RecommendationsIff(results, false);
  }
}
