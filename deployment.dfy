/** Deploying workspace folders: one folder's deployment (resolve its workspace name,
    ensure the workspace, deploy its items) turned into a `DeploymentResult` that
    never raises, the sequential continue-on-failure loop over all folders, the
    summary counts, and the sorted JSON report. */
module Deployment {
  import opened Common
  import opened Ordering
  import opened Config
  import opened WorkspaceManager

  /** The outcome of deploying one workspace folder. */
  datatype DeploymentResult = DeploymentResult(
    workspaceFolder: string,
    workspaceName: string,
    success: bool,
    errorMessage: string)

  /** All results of one run; `duration` is the measured wall-clock time in seconds. */
  datatype DeploymentSummary = DeploymentSummary(environment: string, duration: real, results: seq<DeploymentResult>)

  predicate Succeeded(r: DeploymentResult) { r.success }

  predicate Failed(r: DeploymentResult) { !r.success }

  function TotalWorkspaces(summary: DeploymentSummary): nat
  {
    |summary.results|
  }

  function SuccessfulCount(summary: DeploymentSummary): nat
  {
    Count(summary.results, Succeeded)
  }

  function FailedCount(summary: DeploymentSummary): nat
  {
    Count(summary.results, Failed)
  }

  lemma {:induction false} CountsPartition(results: seq<DeploymentResult>)
    ensures Count(results, Succeeded) + Count(results, Failed) == |results|
    decreases |results|
  {
    if |results| > 0 {
      CountsPartition(results[1..]);
    }
  }

  lemma {:induction false} NoFailedMeansAllSucceeded(results: seq<DeploymentResult>)
    ensures Count(results, Failed) == 0 <==> forall i :: 0 <= i < |results| ==> results[i].success
    decreases |results|
  {
    if |results| > 0 {
      NoFailedMeansAllSucceeded(results[1..]);
      assert forall i :: 1 <= i < |results| ==> results[i] == results[1..][i - 1];
    }
  }

  /** Every result is either successful or failed, so the two counts add up to the
      total; and nothing failed exactly when every deployment succeeded. */
  lemma SummaryCounts(summary: DeploymentSummary)
    ensures SuccessfulCount(summary) + FailedCount(summary) == TotalWorkspaces(summary)
    ensures FailedCount(summary) == 0 <==> forall i :: 0 <= i < |summary.results| ==> summary.results[i].success
    ensures FailedCount(summary) == 0 <==> SuccessfulCount(summary) == TotalWorkspaces(summary)
  {
    CountsPartition(summary.results);
    NoFailedMeansAllSucceeded(summary.results);
  }

  // ----- deploy_workspace -----

  /** The settings one run passes to every folder's deployment. */
  datatype DeploymentSettings = DeploymentSettings(
    workspacesDirectory: string,
    environment: string,
    capacityId: Option<string>,
    servicePrincipalObjectId: Option<string>,
    entraAdminGroupId: Option<string>,
    configFilename: string)

  /** What the outside world does for one folder: what reading its configuration file
      finds, whether building the API client raises, and whether the item deployment
      from the configuration file raises. */
  datatype FolderInputs = FolderInputs(configFile: ConfigFile, client: Outcome<Error>, itemDeployment: Outcome<Error>)

  /** The result recorded for a failed folder: the workspace name when one was resolved
      and is non-empty, the folder name otherwise, and `str(e)` as the message. */
  function FailedResult(folder: string, workspaceName: string, e: Error): (r: DeploymentResult)
    ensures !r.success && r.workspaceFolder == folder && r.errorMessage == ExceptionText(e)
    ensures r.workspaceName == if workspaceName != "" then workspaceName else folder
  {
    DeploymentResult(folder, if workspaceName != "" then workspaceName else folder, false, ExceptionText(e))
  }

  /** What `deploy_workspace` returns and leaves behind. */
  function DeployWorkspaceSpec(s: ServiceState, folder: string, settings: DeploymentSettings, inputs: FolderInputs)
    : (out: (DeploymentResult, ServiceState))
    ensures out.0.workspaceFolder == folder
  {
    var name := ResolveWorkspaceName(folder, settings.configFilename, inputs.configFile, settings.environment);
    if name.Err? then (FailedResult(folder, "", name.error), s)
    else if inputs.client.Fail? then (FailedResult(folder, name.value, inputs.client.error), s)
    else
      var (ensured, s1) := EnsureSpec(s, name.value, settings.capacityId, settings.servicePrincipalObjectId, settings.entraAdminGroupId);
      if ensured.Err? then (FailedResult(folder, name.value, ensured.error), s1)
      else if inputs.itemDeployment.Fail? then (FailedResult(folder, name.value, inputs.itemDeployment.error), s1)
      else (DeploymentResult(folder, name.value, true, ""), s1)
  }

  /** A folder deploys successfully exactly when its name resolves, the client is built,
      the workspace is ensured and the items deploy; each step runs only when the ones
      before it passed, the first exception becomes the failed result, and the
      service changes only through `ensure_workspace_exists`. */
  lemma DeployWorkspaceOutcome(s: ServiceState, folder: string, settings: DeploymentSettings, inputs: FolderInputs)
    ensures var out := DeployWorkspaceSpec(s, folder, settings, inputs);
      var name := ResolveWorkspaceName(folder, settings.configFilename, inputs.configFile, settings.environment);
      && (out.0.success <==>
            name.Ok? && inputs.client.Pass?
            && EnsureSpec(s, name.value, settings.capacityId, settings.servicePrincipalObjectId, settings.entraAdminGroupId).0.Ok?
            && inputs.itemDeployment.Pass?)
      && (out.0.success ==> out.0.workspaceName == name.value && out.0.errorMessage == "")
      && (!out.0.success ==> out.0.workspaceName == if name.Ok? && name.value != "" then name.value else folder)
      && (name.Err? ==> out == (FailedResult(folder, "", name.error), s))
      && (name.Ok? && inputs.client.Fail? ==> out == (FailedResult(folder, name.value, inputs.client.error), s))
      && (name.Ok? && inputs.client.Pass? ==>
            var ensured := EnsureSpec(s, name.value, settings.capacityId, settings.servicePrincipalObjectId,
                                      settings.entraAdminGroupId).0;
            && out.1 == EnsureSpec(s, name.value, settings.capacityId, settings.servicePrincipalObjectId,
                                   settings.entraAdminGroupId).1
            && (ensured.Err? ==> out.0 == FailedResult(folder, name.value, ensured.error))
            && (ensured.Ok? && inputs.itemDeployment.Fail? ==>
                  out.0 == FailedResult(folder, name.value, inputs.itemDeployment.error)))
  {
  }

  /** `deploy_workspace`. */
  method DeployWorkspace(folder: string, settings: DeploymentSettings, inputs: FolderInputs, svc: FabricService)
    returns (r: DeploymentResult)
    modifies svc
    ensures (r, svc.State()) == DeployWorkspaceSpec(old(svc.State()), folder, settings, inputs)
  {
    var config := LoadWorkspaceConfig(folder, settings.configFilename, inputs.configFile);
    if config.Err? {
      return FailedResult(folder, "", config.error);
    }
    var workspaceName := GetWorkspaceNameFromConfig(config.value, settings.environment);
    if workspaceName.Err? {
      return FailedResult(folder, "", workspaceName.error);
    }
    if inputs.client.Fail? {
      return FailedResult(folder, workspaceName.value, inputs.client.error);
    }
    var workspaceId := EnsureWorkspaceExists(workspaceName.value, settings.capacityId, settings.servicePrincipalObjectId,
                                             settings.entraAdminGroupId, svc);
    if workspaceId.Err? {
      return FailedResult(folder, workspaceName.value, workspaceId.error);
    }
    if inputs.itemDeployment.Fail? {
      return FailedResult(folder, workspaceName.value, inputs.itemDeployment.error);
    }
    return DeploymentResult(folder, workspaceName.value, true, "");
  }

  // ----- deploy_all_workspaces -----

  /** The folders deployed one after another, each against the service state the
      previous ones left; a failure is recorded and the next folder still runs. */
  function DeployAllSpec(s: ServiceState, folders: seq<string>, settings: DeploymentSettings, inputs: string -> FolderInputs)
    : (out: (seq<DeploymentResult>, ServiceState))
    ensures |out.0| == |folders|
    ensures forall i :: 0 <= i < |folders| ==> out.0[i].workspaceFolder == folders[i]
    ensures |folders| == 0 ==> out == ([], s)
    decreases |folders|
  {
    if |folders| == 0 then ([], s)
    else
      var (results, s1) := DeployAllSpec(s, folders[..|folders| - 1], settings, inputs);
      var (last, s2) := DeployWorkspaceSpec(s1, folders[|folders| - 1], settings, inputs(folders[|folders| - 1]));
      (results + [last], s2)
  }

  /** Continue-on-failure: the result of folder `i` is exactly what deploying that folder
      alone gives on the state the folders before it left, whatever became of them. */
  lemma {:induction false} DeployAllRunsEveryFolder(s: ServiceState, folders: seq<string>, settings: DeploymentSettings,
                                                    inputs: string -> FolderInputs, i: nat)
    requires i < |folders|
    ensures DeployAllSpec(s, folders, settings, inputs).0[i]
      == DeployWorkspaceSpec(DeployAllSpec(s, folders[..i], settings, inputs).1, folders[i], settings, inputs(folders[i])).0
    decreases |folders|
  {
    var n := |folders|;
    if i < n - 1 {
      DeployAllRunsEveryFolder(s, folders[..n - 1], settings, inputs, i);
      assert folders[..n - 1][..i] == folders[..i];
    } else {
      assert folders[..i] == folders[..n - 1];
    }
  }

  /** `deploy_all_workspaces`. */
  method DeployAllWorkspaces(folders: seq<string>, settings: DeploymentSettings, inputs: string -> FolderInputs, svc: FabricService)
    returns (results: seq<DeploymentResult>)
    modifies svc
    ensures (results, svc.State()) == DeployAllSpec(old(svc.State()), folders, settings, inputs)
  {
    ghost var s0 := svc.State();
    results := [];
    var i := 0;
    while i < |folders|
      invariant 0 <= i <= |folders|
      invariant (results, svc.State()) == DeployAllSpec(s0, folders[..i], settings, inputs)
    {
      var result := DeployWorkspace(folders[i], settings, inputs(folders[i]), svc);
      results := results + [result];
      assert folders[..i + 1][..i] == folders[..i];
      i := i + 1;
    }
    assert folders[..i] == folders;
  }

  // ----- build_deployment_results_json -----

  /** One entry of the report's `workspaces` list. */
  datatype WorkspaceRecord = WorkspaceRecord(name: string, fullName: string, status: string, error: string)

  /** The report written for the pipeline's summary page. */
  datatype ResultsJson = ResultsJson(
    environment: string,
    duration: real,
    totalWorkspaces: nat,
    successfulCount: nat,
    failedCount: nat,
    workspaces: seq<WorkspaceRecord>)

  function ToRecord(r: DeploymentResult): (w: WorkspaceRecord)
    ensures w.name == r.workspaceFolder && w.fullName == r.workspaceName && w.error == r.errorMessage
    ensures w.status == (if r.success then "success" else "failure")
  {
    WorkspaceRecord(r.workspaceFolder, r.workspaceName, if r.success then "success" else "failure", r.errorMessage)
  }

  function RecordName(w: WorkspaceRecord): string { w.name }

  predicate IsSuccessRecord(w: WorkspaceRecord) { w.status == "success" }

  /** The records in the order of the results. */
  function Records(results: seq<DeploymentResult>): (records: seq<WorkspaceRecord>)
    ensures |records| == |results|
    ensures forall i :: 0 <= i < |results| ==> records[i] == ToRecord(results[i])
    decreases |results|
  {
    if |results| == 0 then [] else [ToRecord(results[0])] + Records(results[1..])
  }

  lemma {:induction false} RecordsCountSuccesses(results: seq<DeploymentResult>)
    ensures Count(Records(results), IsSuccessRecord) == Count(results, Succeeded)
    decreases |results|
  {
    if |results| > 0 {
      RecordsCountSuccesses(results[1..]);
      assert Records(results)[1..] == Records(results[1..]);
    }
  }

  /** The report `build_deployment_results_json` builds from a summary. */
  function ReportOf(summary: DeploymentSummary): ResultsJson
  {
    ResultsJson(summary.environment, summary.duration, TotalWorkspaces(summary), SuccessfulCount(summary),
                FailedCount(summary), SortBy(Records(summary.results), RecordName))
  }

  /** `build_deployment_results_json`: the counts of the summary, and one record per
      result, sorted by folder name, stable for equal names, as many "success"
      records as successful deployments. */
  method BuildDeploymentResultsJson(summary: DeploymentSummary) returns (report: ResultsJson)
    ensures report == ReportOf(summary)
    ensures report.environment == summary.environment && report.duration == summary.duration
    ensures report.totalWorkspaces == TotalWorkspaces(summary)
    ensures report.successfulCount == SuccessfulCount(summary) && report.failedCount == FailedCount(summary)
    ensures report.successfulCount + report.failedCount == report.totalWorkspaces
    ensures report.workspaces == SortBy(Records(summary.results), RecordName)
    ensures SortedBy(report.workspaces, RecordName)
    ensures multiset(report.workspaces) == multiset(Records(summary.results))
    ensures forall name :: KeyFilter(report.workspaces, RecordName, name) == KeyFilter(Records(summary.results), RecordName, name)
    ensures Count(report.workspaces, IsSuccessRecord) == report.successfulCount
  {
    var workspaces: seq<WorkspaceRecord> := [];
    var i := 0;
    while i < |summary.results|
      invariant 0 <= i <= |summary.results|
      invariant |workspaces| == i
      invariant forall k :: 0 <= k < i ==> workspaces[k] == ToRecord(summary.results[k])
    {
      workspaces := workspaces + [ToRecord(summary.results[i])];
      i := i + 1;
    }
    assert workspaces == Records(summary.results);
    var sorted := SortBy(workspaces, RecordName);
    SortBySortsAndPermutes(workspaces, RecordName);
    forall name
      ensures KeyFilter(sorted, RecordName, name) == KeyFilter(workspaces, RecordName, name)
    {
      SortByIsStable(workspaces, RecordName, name);
    }
    SortByKeepsCount(workspaces, RecordName, IsSuccessRecord);
    RecordsCountSuccesses(summary.results);
    SummaryCounts(summary);
    report := ResultsJson(summary.environment, summary.duration, TotalWorkspaces(summary),
                          SuccessfulCount(summary), FailedCount(summary), sorted);
  }
}
