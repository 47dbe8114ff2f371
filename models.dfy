/** The grading pipeline's result model (pkg/api/models/models.go): stages, runs
    and tasks, the derivation of a test stage from a run, the baseline
    performance gate, and the system-error report.

    Go mutates these records through pointers, so Stage, Run and Task are
    classes here. StageValue and RunValue are the field values of a Stage and
    a Run; a Task keeps its stages and runs as such values. The value-level
    functions FilledFromRun, Compared and SystemErrorStage are what the
    methods are proved against. */
module Models {
  import opened Options
  import opened Decimal

  /** Go's uint64, the type of Run.Score. */
  newtype uint64 = x: int | 0 <= x < 0x1_0000_0000_0000_0000

  const Uint64Modulus: int := 0x1_0000_0000_0000_0000

  const StatusSuccess: string := "success"
  const StatusFailure: string := "failure"
  const StatusException: string := "exception"

  /** The only text a candidate sees for an infrastructure fault. */
  const SystemErrorOutput: string := "System error. Reported to administrators."

  /** The gate, in tenths of a percent of the baseline score: 120.0% still passes. */
  const FailureThreshold: nat := 1200

  const PerformancePrefix: string := "Performance: "
  const PerformanceSuffix: string := "% of baseline"

  datatype RunHash = RunHash(hash: string)

  /** The fields of a Stage. */
  datatype StageValue = StageValue(
    name: string,
    status: string,
    test: string,
    output: string,
    run: Option<RunHash>,
    cached: bool)
  {
    predicate Success() {
      status == StatusSuccess
    }
  }

  /** The fields of a Run. */
  datatype RunValue = RunValue(
    hash: string,
    status: string,
    output: string,
    score: uint64,
    test: string,
    baseline: bool)

  /* ---------------- Stage.FillFromRun ---------------- */

  /** The stage after FillFromRun(stageName, r): named "<stageName>::<test>",
      status, test and output taken from the run, run hash and cached flag kept. */
  function FilledFromRun(s: StageValue, stageName: string, r: RunValue): StageValue
  {
    s.(name := stageName + "::" + r.test, status := r.status, test := r.test, output := r.output)
  }

  /** The derived name splits back into the step name, the "::" separator and
      the run's test identifier. */
  lemma FilledNameSplits(s: StageValue, stageName: string, r: RunValue)
    ensures var name := FilledFromRun(s, stageName, r).name;
      && |name| == |stageName| + 2 + |r.test|
      && name[..|stageName|] == stageName
      && name[|stageName|..|stageName| + 2] == "::"
      && name[|stageName| + 2..] == r.test
  {
  }

  /** Derivation depends on the run and the step name only: two stages filled
      from the same run differ at most in the fields FillFromRun leaves alone. */
  lemma FilledIgnoresPriorContent(s1: StageValue, s2: StageValue, stageName: string, r: RunValue)
    ensures FilledFromRun(s1, stageName, r) == FilledFromRun(s2, stageName, r).(run := s1.run, cached := s1.cached)
  {
  }

  /** A derived stage reports success exactly when its run did. */
  lemma FilledSucceedsIffRunSucceeded(s: StageValue, stageName: string, r: RunValue)
    ensures FilledFromRun(s, stageName, r).Success() <==> r.status == StatusSuccess
  {
  }

  /* ---------------- Task.ReportSystemError ---------------- */

  /** The stage ReportSystemError(test) appends. */
  function SystemErrorStage(test: string): StageValue
  {
    StageValue(
      if test == "" then "system" else "test::" + test,
      StatusException, test, SystemErrorOutput, None, false)
  }

  /** A system-error stage is an exception without a run hash and never a success. */
  lemma SystemErrorStageIsException(test: string)
    ensures var s := SystemErrorStage(test);
      s.status == StatusException && !s.Success() && s.run == None && s.test == test
  {
  }

  /** The name of a system-error stage identifies the failing test ("system"
      when none is known). */
  lemma SystemErrorNameIdentifiesTest(t1: string, t2: string)
    requires SystemErrorStage(t1).name == SystemErrorStage(t2).name
    ensures t1 == t2
  {
    if t1 != "" && t2 != "" {
      var n1, n2 := SystemErrorStage(t1).name, SystemErrorStage(t2).name;
      assert t1 == n1[6..] && t2 == n2[6..];
    }
  }

  /** For a known test, the system-error stage carries the same name as the
      stage FillFromRun("test", …) derives from a run of that test. */
  lemma SystemErrorNameMatchesTestStage(s: StageValue, r: RunValue)
    requires r.test != ""
    ensures SystemErrorStage(r.test).name == FilledFromRun(s, "test", r).name
  {
  }

  /* ---------------- Run.CompareToBaseline ---------------- */

  /** The percentage, in tenths, computed without overflow and truncated:
      the largest p with p * baseline <= score * 1000. */
  function ExactPercent(score: nat, baseline: nat): (p: nat)
    requires baseline > 0
    ensures p * baseline <= score * 1000 < (p + 1) * baseline
  {
    var q := score * 1000 / baseline;
    assert score * 1000 == q * baseline + score * 1000 % baseline;
    q
  }

  /** r.Score * 1000 / b.Score as Go evaluates it on uint64: the product wraps
      modulo 2^64 and the division truncates. Without wrap-around it is the
      exact percentage. */
  function Percent(score: uint64, baseline: uint64): (p: uint64)
    requires baseline != 0
    ensures score as int * 1000 < Uint64Modulus ==> p as nat == ExactPercent(score as nat, baseline as nat)
    ensures p as int <= score as int * 1000 % Uint64Modulus
  {
    var product := score as int * 1000 % Uint64Modulus;
    DivisionBound(product, baseline as int);
    (product / baseline as int) as uint64
  }

  lemma DivisionBound(a: nat, b: int)
    requires b >= 1
    ensures a / b <= a
  {
    assert a == (a / b) * b + a % b;
  }

  /** The output text CompareToBaseline writes; Go's "%.1f" of percent / 10 is
      rendered in integer tenths. */
  function PerformanceText(percent: nat): string
  {
    PerformancePrefix + Digits(percent / 10) + "." + [DigitChar(percent % 10)] + PerformanceSuffix
  }

  /** Reads the percentage, in tenths, back from a performance text. */
  function ParsePerformance(text: string): Option<nat>
  {
    if |text| < |PerformancePrefix| + 3 + |PerformanceSuffix| then None
    else if text[..|PerformancePrefix|] != PerformancePrefix then None
    else if text[|text| - |PerformanceSuffix|..] != PerformanceSuffix then None
    else
      var middle := text[|PerformancePrefix|..|text| - |PerformanceSuffix|];
      var whole := middle[..|middle| - 2];
      if middle[|middle| - 2] == '.' && IsDigit(middle[|middle| - 1]) && AllDigits(whole)
      then Some(ParseDigits(whole) * 10 + DigitValue(middle[|middle| - 1]))
      else None
  }

  /** The performance text states the percentage unambiguously. */
  lemma {:induction false} ParsePerformanceText(percent: nat)
    ensures ParsePerformance(PerformanceText(percent)) == Some(percent)
  {
    var whole := Digits(percent / 10);
    var c := DigitChar(percent % 10);
    var text := PerformanceText(percent);
    assert text == PerformancePrefix + (whole + "." + [c]) + PerformanceSuffix;
    assert text[..|PerformancePrefix|] == PerformancePrefix;
    assert text[|text| - |PerformanceSuffix|..] == PerformanceSuffix;
    var middle := text[|PerformancePrefix|..|text| - |PerformanceSuffix|];
    assert middle == whole + "." + [c];
    assert middle[..|middle| - 2] == whole;
    ParseDigitsOfDigits(percent / 10);
  }

  /** The run after CompareToBaseline(b): unscored runs are left alone; scored
      runs get the performance text and the gate's verdict. */
  function Compared(r: RunValue, b: RunValue): RunValue
    requires r.score != 0 ==> b.score != 0
  {
    if r.score == 0 then r
    else
      var percent := Percent(r.score, b.score);
      r.(output := PerformanceText(percent as nat),
         status := if percent as nat > FailureThreshold then StatusFailure else StatusSuccess)
  }

  /** A run with score 0 is not touched. */
  lemma CompareUnscoredIsNoOp(r: RunValue, b: RunValue)
    requires r.score == 0
    ensures Compared(r, b) == r
  {
  }

  /** Only the status and the output can change; hash, score, test and the
      baseline flag are kept. */
  lemma CompareChangesOnlyVerdict(r: RunValue, b: RunValue)
    requires r.score != 0 ==> b.score != 0
    ensures var c := Compared(r, b);
      c == r.(status := c.status, output := c.output)
  {
  }

  /** Comparing twice against the same baseline changes nothing more. */
  lemma CompareIdempotent(r: RunValue, b: RunValue)
    requires r.score != 0 ==> b.score != 0
    ensures Compared(Compared(r, b), b) == Compared(r, b)
  {
  }

  /** A scored run ends up with status "success" or "failure", and its output
      states the percentage it was judged by. */
  lemma CompareReportsPercent(r: RunValue, b: RunValue)
    requires r.score != 0 && b.score != 0
    ensures var c := Compared(r, b);
      && (c.status == StatusFailure <==> Percent(r.score, b.score) as nat > FailureThreshold)
      && (c.status == StatusSuccess <==> Percent(r.score, b.score) as nat <= FailureThreshold)
      && ParsePerformance(c.output) == Some(Percent(r.score, b.score) as nat)
  {
    ParsePerformanceText(Percent(r.score, b.score) as nat);
  }

  /** Without wrap-around the gate needs no division: a scored run fails
      exactly when score * 1000 >= 1201 * baseline, that is when it is above
      120.0% of the baseline after truncation to tenths. */
  lemma CompareVerdict(r: RunValue, b: RunValue)
    requires r.score != 0 && b.score != 0
    requires r.score as int * 1000 < Uint64Modulus
    ensures Compared(r, b).status == StatusFailure <==> r.score as int * 1000 >= (FailureThreshold + 1) * b.score as int
    ensures Compared(r, b).status == StatusSuccess <==> r.score as int * 1000 < (FailureThreshold + 1) * b.score as int
  {
    var s, base := r.score as nat, b.score as nat;
    var p := ExactPercent(s, base);
    if p > FailureThreshold {
      MulMonotone(FailureThreshold + 1, p, base);
    } else {
      MulMonotone(p + 1, FailureThreshold + 1, base);
    }
  }

  lemma MulMonotone(x: nat, y: nat, k: nat)
    requires x <= y
    ensures x * k <= y * k
  {
  }

  /** The boundary of the gate: 120.0% of the baseline passes, 120.1% fails. */
  lemma GateBoundary()
    ensures Compared(RunValue("h", "", "", 1200, "t", false), RunValue("b", "", "", 1000, "t", true)).status == StatusSuccess
    ensures Compared(RunValue("h", "", "", 1201, "t", false), RunValue("b", "", "", 1000, "t", true)).status == StatusFailure
  {
  }

  /** Baseline score 100, candidate 100: 100.0%, success. */
  lemma ScenarioEqualScore()
    ensures Compared(RunValue("h", "", "", 100, "t", false), RunValue("b", "success", "", 100, "t", true))
      == RunValue("h", StatusSuccess, "Performance: 100.0% of baseline", 100, "t", false)
  {
    assert Percent(100, 100) == 1000;
    assert Digits(100) == "100";
  }

  /** Baseline score 100, candidate 130: 130.0%, failure. */
  lemma ScenarioSlowCandidate()
    ensures Compared(RunValue("h", "", "", 130, "t", false), RunValue("b", "success", "", 100, "t", true))
      == RunValue("h", StatusFailure, "Performance: 130.0% of baseline", 130, "t", false)
  {
    assert Percent(130, 100) == 1300;
    assert Digits(130) == "130";
  }

  /** Baseline score 100, candidate 120: 120.0%, success (the gate is exclusive). */
  lemma ScenarioAtThreshold()
    ensures Compared(RunValue("h", "", "", 120, "t", false), RunValue("b", "success", "", 100, "t", true))
      == RunValue("h", StatusSuccess, "Performance: 120.0% of baseline", 120, "t", false)
  {
    assert Percent(120, 100) == 1200;
    assert Digits(120) == "120";
  }

  /** As written, the uint64 product wraps, and the gate stops being monotone:
      a candidate scoring 18446744073709551 times the baseline fails, while one
      scoring 18446744073709552 times the baseline is reported at 38.4% and
      passes. */
  lemma PercentOverflowPassesSlowCandidate()
    ensures var b := RunValue("b", "", "", 1, "t", true);
      && Compared(RunValue("h", "", "", 18446744073709551, "t", false), b).status == StatusFailure
      && Compared(RunValue("h", "", "", 18446744073709552, "t", false), b).status == StatusSuccess
      && Percent(18446744073709552, 1) == 384
      && ExactPercent(18446744073709552, 1) > FailureThreshold
  {
    assert Percent(18446744073709551, 1) as nat > FailureThreshold;
    assert Percent(18446744073709552, 1) == 384;
  }

  /** The exact percentage never rewards a larger score: a candidate scoring
      at least as much as a failing one fails too. */
  lemma ExactPercentMonotone(s1: nat, s2: nat, baseline: nat)
    requires baseline > 0 && s1 <= s2
    ensures ExactPercent(s1, baseline) <= ExactPercent(s2, baseline)
  {
    var p1, p2 := ExactPercent(s1, baseline), ExactPercent(s2, baseline);
    if p1 > p2 {
      MulMonotone(p2 + 1, p1, baseline);
      assert false;
    }
  }

  /** The gate as evidently intended: the same as Compared, on the exact
      percentage instead of the wrapped one. */
  function ComparedExact(r: RunValue, b: RunValue): RunValue
    requires r.score != 0 ==> b.score != 0
  {
    if r.score == 0 then r
    else
      var percent := ExactPercent(r.score as nat, b.score as nat);
      r.(output := PerformanceText(percent),
         status := if percent > FailureThreshold then StatusFailure else StatusSuccess)
  }

  /** While the product fits in 64 bits the code computes the intended gate. */
  lemma ComparedExactAgrees(r: RunValue, b: RunValue)
    requires r.score != 0 ==> b.score != 0
    requires r.score as int * 1000 < Uint64Modulus
    ensures Compared(r, b) == ComparedExact(r, b)
  {
  }

  /** With the exact percentage a larger score never turns a failure into a
      success. */
  lemma ComparedExactMonotone(r1: RunValue, r2: RunValue, b: RunValue)
    requires b.score != 0 && 0 < r1.score <= r2.score
    requires ComparedExact(r1, b).status == StatusFailure
    ensures ComparedExact(r2, b).status == StatusFailure
  {
    ExactPercentMonotone(r1.score as nat, r2.score as nat, b.score as nat);
  }

  /* ---------------- the records ---------------- */

  class Stage {
    var name: string
    var status: string
    var test: string
    var output: string
    var run: Option<RunHash>
    var cached: bool

    /** A Go composite literal &Stage{Name: …, Status: …, Test: …, Output: …};
        &Stage{} is Stage("", "", "", ""). */
    constructor (name: string, status: string, test: string, output: string)
      ensures View() == StageValue(name, status, test, output, None, false)
    {
      this.name := name;
      this.status := status;
      this.test := test;
      this.output := output;
      this.run := None;
      this.cached := false;
    }

    function View(): StageValue
      reads this
    {
      StageValue(name, status, test, output, run, cached)
    }

    predicate Success()
      reads this
    {
      View().Success()
    }

    /** Copies the run's status, test and output into this stage and names it
        after the step and the test; the run is only read. */
    method FillFromRun(stageName: string, r: RunValue)
      modifies this
      ensures View() == FilledFromRun(old(View()), stageName, r)
    {
      name := stageName + "::" + r.test;
      status := r.status;
      test := r.test;
      output := r.output;
    }
  }

  class Run {
    var hash: string
    var status: string
    var output: string
    var score: uint64
    var test: string
    var baseline: bool

    constructor (hash: string, status: string, output: string, score: uint64, test: string, baseline: bool)
      ensures View() == RunValue(hash, status, output, score, test, baseline)
    {
      this.hash := hash;
      this.status := status;
      this.output := output;
      this.score := score;
      this.test := test;
      this.baseline := baseline;
    }

    function View(): RunValue
      reads this
    {
      RunValue(hash, status, output, score, test, baseline)
    }

    /** Go divides by b.Score, which panics when it is 0 and this run is scored. */
    method CompareToBaseline(b: Run)
      requires score != 0 ==> b.score != 0
      modifies this
      ensures View() == Compared(old(View()), old(b.View()))
      ensures old(score) as int * 1000 < Uint64Modulus ==> View() == ComparedExact(old(View()), old(b.View()))
      ensures b != this ==> b.View() == old(b.View())
    {
      if score as int * 1000 < Uint64Modulus {
        ComparedExactAgrees(View(), b.View());
      }
      if score == 0 {
        return;
      }
      var percent := Percent(score, b.score);
      output := PerformanceText(percent as nat);
      if percent as nat > FailureThreshold {
        status := StatusFailure;
      } else {
        status := StatusSuccess;
      }
    }
  }

  /** A task keeps the field values of its stages and runs. */
  class Task {
    const id: string
    const ref: string
    const url: string
    var stages: seq<StageValue>
    var runs: seq<RunValue>

    constructor (id: string, ref: string, url: string)
      ensures this.id == id && this.ref == ref && this.url == url
      ensures stages == [] && runs == []
    {
      this.id := id;
      this.ref := ref;
      this.url := url;
      stages := [];
      runs := [];
    }

    /** Appends one system-error stage; earlier stages and the runs are kept. */
    method ReportSystemError(test: string)
      modifies this
      ensures stages == old(stages) + [SystemErrorStage(test)]
      ensures runs == old(runs)
    {
      var name: string;
      if test == "" {
        name := "system";
      } else {
        name := "test::" + test;
      }
      var stage := new Stage(name, StatusException, test, SystemErrorOutput);
      stages := stages + [stage.View()];
    }
  }
}
