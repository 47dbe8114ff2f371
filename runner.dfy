/** The worker's per-task orchestration (pkg/runner/tasks.go): runTask fills a
    claimed task with build stages, run results and system-error stages, and
    finishTask hands the results to the queue service.

    The workspace, the container build, the test store and the queue service
    are not modelled; their outcomes are the inputs of the methods below. */
module Runner {
  import opened Options
  import opened Models

  /** One test discovered by the execution engine; run is None when the
      engine could not complete it. */
  datatype Artifact = Artifact(test: string, run: Option<RunValue>)

  /** What creating the test store and executing it produced. */
  datatype Execution =
    | StoreFailed
    | ExecuteFailed
    | Executed(artifacts: seq<Artifact>)

  datatype TaskError = WorkspaceError | StoreError | ExecuteError

  /** The zero value of a stage, &Stage{} in the source. */
  const EmptyStage := StageValue("", "", "", "", None, false)

  /** The number of the first n artifacts the engine left without a run. */
  function CountMissing(artifacts: seq<Artifact>, n: nat): (m: nat)
    requires n <= |artifacts|
    ensures m <= n
  {
    if n == 0 then 0
    else CountMissing(artifacts, n - 1) + (if artifacts[n - 1].run.None? then 1 else 0)
  }

  /** The runs of the first n artifacts that have one, in artifact order: what
      the artifact loop of runTask has appended to the runs after n steps. */
  function RunsOf(artifacts: seq<Artifact>, n: nat): (runs: seq<RunValue>)
    requires n <= |artifacts|
    ensures |runs| == n - CountMissing(artifacts, n)
  {
    if n == 0 then []
    else RunsOf(artifacts, n - 1) + (if artifacts[n - 1].run.Some? then [artifacts[n - 1].run.value] else [])
  }

  /** No artifact is missing exactly when every artifact has a run. */
  lemma {:induction false} NoneMissingIffAllRan(artifacts: seq<Artifact>, n: nat)
    requires n <= |artifacts|
    ensures CountMissing(artifacts, n) == 0 <==> forall k :: 0 <= k < n ==> artifacts[k].run.Some?
  {
    if n > 0 {
      NoneMissingIffAllRan(artifacts, n - 1);
    }
  }

  /** When every artifact has a run, the k-th run recorded is the k-th
      artifact's run. */
  lemma {:induction false} RunsInArtifactOrder(artifacts: seq<Artifact>, n: nat, k: int)
    requires 0 <= k < n <= |artifacts|
    requires forall j :: 0 <= j < n ==> artifacts[j].run.Some?
    ensures |RunsOf(artifacts, n)| == n
    ensures RunsOf(artifacts, n)[k] == artifacts[k].run.value
  {
    NoneMissingIffAllRan(artifacts, n);
    if k < n - 1 {
      RunsInArtifactOrder(artifacts, n - 1, k);
    }
  }

  /** The runs recorded are exactly the runs the artifacts carry. */
  lemma {:induction false} RunsOfMembers(artifacts: seq<Artifact>, n: nat, r: RunValue)
    requires n <= |artifacts|
    ensures r in RunsOf(artifacts, n) <==> exists k :: 0 <= k < n && artifacts[k].run == Some(r)
  {
    if n > 0 {
      RunsOfMembers(artifacts, n - 1, r);
    }
  }

  /** The stage the artifact loop of runTask appends for one artifact. */
  function ArtifactStage(a: Artifact): StageValue
  {
    match a.run
    case None => SystemErrorStage(a.test)
    case Some(r) => FilledFromRun(EmptyStage, "test", r)
  }

  /** The stages the artifact loop of runTask has appended after n steps. */
  function ArtifactStages(artifacts: seq<Artifact>, n: nat): (stages: seq<StageValue>)
    requires n <= |artifacts|
    ensures |stages| == n
  {
    if n == 0 then []
    else ArtifactStages(artifacts, n - 1) + [ArtifactStage(artifacts[n - 1])]
  }

  /** The number of stages with status "exception". */
  function CountExceptions(stages: seq<StageValue>): (m: nat)
    ensures m <= |stages|
  {
    if stages == [] then 0
    else CountExceptions(stages[..|stages| - 1]) + (if stages[|stages| - 1].status == StatusException then 1 else 0)
  }

  /** An artifact without a run becomes a system-error stage for its test; one
      with a run becomes a "test::<id>" stage that succeeds exactly when the
      run did and carries the run's output. */
  lemma ArtifactStageKinds(a: Artifact)
    ensures a.run.None? ==> ArtifactStage(a) == SystemErrorStage(a.test)
    ensures a.run.Some? ==>
      var r := a.run.value;
      && ArtifactStage(a).name == "test::" + r.test
      && (ArtifactStage(a).Success() <==> r.status == StatusSuccess)
      && ArtifactStage(a).test == r.test
      && ArtifactStage(a).output == r.output
      && ArtifactStage(a).run == None
  {
    if a.run.Some? {
      FilledSucceedsIffRunSucceeded(EmptyStage, "test", a.run.value);
    }
  }

  /** One stage per artifact, the k-th derived from the k-th artifact. */
  lemma {:induction false} ArtifactStagesAt(artifacts: seq<Artifact>, n: nat, k: int)
    requires 0 <= k < n <= |artifacts|
    ensures ArtifactStages(artifacts, n)[k] == ArtifactStage(artifacts[k])
  {
    if k < n - 1 {
      ArtifactStagesAt(artifacts, n - 1, k);
    }
  }

  /** When the engine never reports "exception" itself, the exception stages of
      the artifact loop are exactly one per artifact without a run. */
  lemma {:induction false} ExceptionStagesAreMissingRuns(artifacts: seq<Artifact>, n: nat)
    requires n <= |artifacts|
    requires forall k :: 0 <= k < n && artifacts[k].run.Some? ==> artifacts[k].run.value.status != StatusException
    ensures CountExceptions(ArtifactStages(artifacts, n)) == CountMissing(artifacts, n)
  {
    if n > 0 {
      ExceptionStagesAreMissingRuns(artifacts, n - 1);
      var stages := ArtifactStages(artifacts, n);
      assert stages[..n - 1] == ArtifactStages(artifacts, n - 1);
    }
  }

  /** Two artifacts, the first with a passing run and the second without: one
      passing test stage, one system-exception stage, one run. */
  lemma OneRunOneMissing(r: RunValue)
    requires r.status == StatusSuccess
    ensures var artifacts := [Artifact(r.test, Some(r)), Artifact("second", None)];
      && RunsOf(artifacts, 2) == [r]
      && ArtifactStages(artifacts, 2) == [FilledFromRun(EmptyStage, "test", r), SystemErrorStage("second")]
      && ArtifactStages(artifacts, 2)[0].Success()
      && CountExceptions(ArtifactStages(artifacts, 2)) == 1
  {
    var stages := ArtifactStages([Artifact(r.test, Some(r)), Artifact("second", None)], 2);
    assert stages[..1] == [stages[0]];
    assert stages[..1][..0] == [];
  }

  /** One step of the artifact loop of runTask: an artifact without a run is
      reported as a system error for its test; otherwise its run is appended
      to the runs and a fresh stage filled from it to the stages. */
  method RecordArtifact(task: Task, a: Artifact)
    modifies task
    ensures task.stages == old(task.stages) + [ArtifactStage(a)]
    ensures task.runs == old(task.runs) + (if a.run.Some? then [a.run.value] else [])
  {
    if a.run.None? {
      task.ReportSystemError(a.test);
    } else {
      task.runs := task.runs + [a.run.value];
      var stage := new Stage("", "", "", "");
      stage.FillFromRun("test", a.run.value);
      task.stages := task.stages + [stage.View()];
    }
  }

  /** The artifact loop of runTask, over the artifacts in order. */
  method RecordArtifacts(task: Task, artifacts: seq<Artifact>)
    modifies task
    ensures task.stages == old(task.stages) + ArtifactStages(artifacts, |artifacts|)
    ensures task.runs == old(task.runs) + RunsOf(artifacts, |artifacts|)
  {
    var i := 0;
    while i < |artifacts|
      invariant 0 <= i <= |artifacts|
      invariant task.stages == old(task.stages) + ArtifactStages(artifacts, i)
      invariant task.runs == old(task.runs) + RunsOf(artifacts, i)
    {
      RecordArtifact(task, artifacts[i]);
      assert ArtifactStages(artifacts, i + 1) == ArtifactStages(artifacts, i) + [ArtifactStage(artifacts[i])];
      ghost var run := if artifacts[i].run.Some? then [artifacts[i].run.value] else [];
      assert old(task.stages) + ArtifactStages(artifacts, i) + [ArtifactStage(artifacts[i])]
          == old(task.stages) + (ArtifactStages(artifacts, i) + [ArtifactStage(artifacts[i])]);
      assert old(task.runs) + RunsOf(artifacts, i) + run == old(task.runs) + (RunsOf(artifacts, i) + run);
      i := i + 1;
    }
  }

  /** runTask: clean the workspace, append the build stages, create and execute
      the test store, then run the artifact loop. A failure before the loop
      adds at most one "system" stage and no run. */
  method RunTask(task: Task, cleaned: bool, build: seq<StageValue>, execution: Execution)
    returns (err: Option<TaskError>)
    modifies task
    ensures !cleaned ==>
      && err == Some(WorkspaceError)
      && task.stages == old(task.stages)
      && task.runs == old(task.runs)
    ensures cleaned && !execution.Executed? ==>
      && err == Some(if execution.StoreFailed? then StoreError else ExecuteError)
      && task.stages == old(task.stages) + build + [SystemErrorStage("")]
      && task.runs == old(task.runs)
    ensures cleaned && execution.Executed? ==>
      var artifacts := execution.artifacts;
      && err == None
      && task.stages == old(task.stages) + build + ArtifactStages(artifacts, |artifacts|)
      && task.runs == old(task.runs) + RunsOf(artifacts, |artifacts|)
  {
    if !cleaned {
      return Some(WorkspaceError);
    }
    task.stages := task.stages + build;

    if execution.StoreFailed? {
      task.ReportSystemError("");
      return Some(StoreError);
    }
    if execution.ExecuteFailed? {
      task.ReportSystemError("");
      return Some(ExecuteError);
    }

    RecordArtifacts(task, execution.artifacts);
    return None;
  }

  /** A call made to the queue service. */
  datatype Request =
    | SubmitRunsCall(runs: seq<RunValue>)
    | FinishTaskCall(taskId: string, stages: seq<StageValue>)

  /** finishTask: submit the runs, then report the stages whatever became of the
      runs. runsAccepted and reportAccepted are the service's answers; a
      rejected run submission is only logged. */
  method FinishTask(task: Task, runsAccepted: bool, reportAccepted: bool)
    returns (requests: seq<Request>, finished: bool)
    ensures requests == [SubmitRunsCall(task.runs), FinishTaskCall(task.id, task.stages)]
    ensures finished <==> reportAccepted
  {
    requests := [SubmitRunsCall(task.runs)];
    requests := requests + [FinishTaskCall(task.id, task.stages)];
    if !reportAccepted {
      return requests, false;
    }
    return requests, true;
  }
}
