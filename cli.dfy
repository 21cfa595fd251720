/** The deployment entry point: validate the stage name, authenticate, discover the
    workspace folders, deploy them all, write the report, and exit with 1 exactly
    when something failed. */
module Cli {
  import opened Common
  import opened Ordering
  import opened Config
  import opened Discovery
  import opened WorkspaceManager
  import opened Deployment

  /** The stages, in the order the constant set is written. */
  const ENVIRONMENTS: seq<string> := ["dev", "test", "prod"]

  const EXIT_SUCCESS: int := 0
  const EXIT_FAILURE: int := 1

  /** `str.lower` on one character, for the ASCII letters. */
  function LowerChar(c: char): (d: char)
    ensures 'A' <= c <= 'Z' ==> 'a' <= d <= 'z' && d as int - c as int == 32
    ensures !('A' <= c <= 'Z') ==> d == c
  {
    if 'A' <= c <= 'Z' then (c as int + 32) as char else c
  }

  /** `str.lower`, character by character. */
  function Lower(s: string): (r: string)
    ensures |r| == |s|
    ensures forall i :: 0 <= i < |s| ==> r[i] == LowerChar(s[i])
  {
    seq(|s|, i requires 0 <= i < |s| => LowerChar(s[i]))
  }

  /** Lowering twice is lowering once. */
  lemma LowerIsIdempotent(s: string)
    ensures Lower(Lower(s)) == Lower(s)
  {
    assert forall i :: 0 <= i < |s| ==> LowerChar(LowerChar(s[i])) == LowerChar(s[i]);
  }

  /** `separator.join(parts)`. */
  function Join(parts: seq<string>, separator: string): string
    decreases |parts|
  {
    if |parts| == 0 then "" else if |parts| == 1 then parts[0] else parts[0] + separator + Join(parts[1..], separator)
  }

  function InvalidEnvironmentMessage(environment: string): string
  {
    "Invalid environment '" + environment + "'. Must be one of: " + Join(SortBy(ENVIRONMENTS, Identity), ", ")
  }

  /** `validate_environment`: accepted exactly when the lowered name is one of the
      stages; otherwise a ValueError naming the name as given. */
  function ValidateEnvironment(environment: string): (r: Outcome<Error>)
    ensures r.Pass? <==> Lower(environment) in ENVIRONMENTS
    ensures r.Fail? ==> r.error == Error(ValueError, InvalidEnvironmentMessage(environment))
  {
    if Lower(environment) in ENVIRONMENTS then Pass
    else Fail(Error(ValueError, InvalidEnvironmentMessage(environment)))
  }

  /** Validation ignores letter case: two names that lower alike are both accepted or
      both rejected, and any accepted name is accepted in lower case too. */
  lemma ValidationIgnoresCase(a: string, b: string)
    requires Lower(a) == Lower(b)
    ensures ValidateEnvironment(a).Pass? <==> ValidateEnvironment(b).Pass?
    ensures ValidateEnvironment(a).Pass? ==> ValidateEnvironment(Lower(a)).Pass?
  {
    LowerIsIdempotent(a);
  }

  /** `sorted` puts the stages in the order dev, prod, test. */
  lemma SortedStages()
    ensures SortBy(ENVIRONMENTS, Identity) == ["dev", "prod", "test"]
  {
    assert !LexLe("test", "prod") by {
      assert "test"[0] == 't' && "prod"[0] == 'p';
    }
    assert LexLe("dev", "prod") by {
      assert "dev"[0] == 'd' && "prod"[0] == 'p';
    }
    assert ENVIRONMENTS[1..] == ["test", "prod"];
    assert ["test", "prod"][1..] == ["prod"];
    assert SortBy(["prod"], Identity) == ["prod"];
    assert InsertBy("test", ["prod"], Identity) == ["prod", "test"] by {
      assert ["prod"][1..] == [];
    }
    assert SortBy(["test", "prod"], Identity) == ["prod", "test"];
  }

  /** The error message lists the stages sorted: "dev, prod, test". */
  lemma InvalidEnvironmentMessageListsSortedStages(environment: string)
    ensures InvalidEnvironmentMessage(environment)
      == "Invalid environment '" + environment + "'. Must be one of: dev, prod, test"
  {
    SortedStages();
    assert ["dev", "prod", "test"][1..] == ["prod", "test"];
    assert ["prod", "test"][1..] == ["test"];
    assert Join(["prod", "test"], ", ") == "prod, test";
  }

  /** Upper- and mixed-case stage names are accepted; other names, and the empty one,
      are not. */
  lemma ValidationExamples()
    ensures ValidateEnvironment("DEV").Pass? && ValidateEnvironment("Test").Pass? && ValidateEnvironment("prod").Pass?
    ensures ValidateEnvironment("staging").Fail? && ValidateEnvironment("").Fail? && ValidateEnvironment("dev ").Fail?
  {
    assert Lower("DEV") == "dev";
    assert Lower("Test") == "test";
    assert Lower("prod") == "prod";
    assert Lower("staging")[0] == 's';
    assert |Lower("dev ")| == 4;
  }

  // ----- main -----

  /** The settings `main` hands to every folder's deployment. */
  function RunSettings(environment: string, workspacesDirectory: string, capacityId: Option<string>,
                       servicePrincipalObjectId: Option<string>, entraAdminGroupId: Option<string>): DeploymentSettings
  {
    DeploymentSettings(workspacesDirectory, environment, capacityId, servicePrincipalObjectId, entraAdminGroupId, CONFIG_FILE)
  }

  /** The part of `main` after the deployments: write the report, then exit with 1
      when a folder failed; a failed write exits with 1 and leaves no report. */
  function FinishSpec(summary: DeploymentSummary, save: Outcome<Error>): (out: (int, Option<ResultsJson>))
  {
    if save.Fail? then (EXIT_FAILURE, None)
    else (if FailedCount(summary) > 0 then EXIT_FAILURE else EXIT_SUCCESS, Some(ReportOf(summary)))
  }

  /** The exit code after the deployments is 0 exactly when the report was written and
      every folder deployed; a written report counts every folder, and no failure
      exactly when the exit code is 0. */
  lemma FinishExitCode(summary: DeploymentSummary, save: Outcome<Error>)
    ensures FinishSpec(summary, save).0 in {EXIT_SUCCESS, EXIT_FAILURE}
    ensures FinishSpec(summary, save).0 == EXIT_SUCCESS <==>
      save.Pass? && forall i :: 0 <= i < |summary.results| ==> summary.results[i].success
    ensures FinishSpec(summary, save).1.Some? ==>
      && (FinishSpec(summary, save).0 == EXIT_SUCCESS <==> FinishSpec(summary, save).1.value.failedCount == 0)
      && FinishSpec(summary, save).1.value.totalWorkspaces == |summary.results|
  {
    SummaryCounts(summary);
  }

  /** What one run of `main` exits with, the report it writes (if it gets that far),
      and the service state it leaves. Authentication, the environment variables,
      the folder contents and the report write are inputs. */
  function MainSpec(s: ServiceState, environment: string, workspacesDirectory: string, credential: Outcome<Error>,
                    capacityId: Option<string>, servicePrincipalObjectId: Option<string>, entraAdminGroupId: Option<string>,
                    root: Directory, inputs: string -> FolderInputs, duration: real, save: Outcome<Error>)
    : (out: (int, Option<ResultsJson>, ServiceState))
  {
    if ValidateEnvironment(environment).Fail? || credential.Fail? then (EXIT_FAILURE, None, s)
    else
      var folders := DiscoverWorkspaceFolders(root, workspacesDirectory, CONFIG_FILE);
      if folders.Err? then (EXIT_FAILURE, None, s)
      else
        var settings := RunSettings(environment, workspacesDirectory, capacityId, servicePrincipalObjectId, entraAdminGroupId);
        var (results, s1) := DeployAllSpec(s, folders.value, settings, inputs);
        var (code, report) := FinishSpec(DeploymentSummary(environment, duration, results), save);
        (code, report, s1)
  }

  /** The exit code is 0 or 1, and 0 exactly when validation, authentication, discovery
      and the report write all passed and every discovered folder deployed
      successfully; the written report then counts no failure. A run stopped before
      deployment leaves the service untouched and writes nothing. */
  lemma ExitCodeRule(s: ServiceState, environment: string, workspacesDirectory: string, credential: Outcome<Error>,
                     capacityId: Option<string>, servicePrincipalObjectId: Option<string>, entraAdminGroupId: Option<string>,
                     root: Directory, inputs: string -> FolderInputs, duration: real, save: Outcome<Error>)
    ensures var out := MainSpec(s, environment, workspacesDirectory, credential, capacityId,
                                servicePrincipalObjectId, entraAdminGroupId, root, inputs, duration, save);
      var folders := GetWorkspaceFolders(root, workspacesDirectory, CONFIG_FILE);
      var settings := RunSettings(environment, workspacesDirectory, capacityId, servicePrincipalObjectId, entraAdminGroupId);
      && out.0 in {EXIT_SUCCESS, EXIT_FAILURE}
      && (out.0 == EXIT_SUCCESS <==>
            && ValidateEnvironment(environment).Pass? && credential.Pass? && folders.Ok? && save.Pass?
            && forall i :: 0 <= i < |folders.value| ==> DeployAllSpec(s, folders.value, settings, inputs).0[i].success)
      && (out.1.Some? ==> (out.0 == EXIT_SUCCESS <==> out.1.value.failedCount == 0))
      && (out.1.Some? ==> out.1.value.totalWorkspaces == |folders.value| > 0)
      && (ValidateEnvironment(environment).Fail? || credential.Fail? || folders.Err? ==> out.2 == s && out.1.None?)
  {
    var out := MainSpec(s, environment, workspacesDirectory, credential, capacityId,
                        servicePrincipalObjectId, entraAdminGroupId, root, inputs, duration, save);
    var folders := GetWorkspaceFolders(root, workspacesDirectory, CONFIG_FILE);
    if ValidateEnvironment(environment).Pass? && credential.Pass? && folders.Ok? {
      var settings := RunSettings(environment, workspacesDirectory, capacityId, servicePrincipalObjectId, entraAdminGroupId);
      var (results, s1) := DeployAllSpec(s, folders.value, settings, inputs);
      var summary := DeploymentSummary(environment, duration, results);
      assert out == (FinishSpec(summary, save).0, FinishSpec(summary, save).1, s1);
      FinishExitCode(summary, save);
      assert summary.results == DeployAllSpec(s, folders.value, settings, inputs).0;
      assert |summary.results| == |folders.value|;
    } else {
      assert out == (EXIT_FAILURE, None, s);
    }
  }

  /** The steps of `main` after discovery: deploy, summarise, write, exit. */
  method DeployDiscovered(folders: seq<string>, settings: DeploymentSettings, inputs: string -> FolderInputs,
                          duration: real, save: Outcome<Error>, svc: FabricService)
    returns (exitCode: int, written: Option<ResultsJson>)
    modifies svc
    ensures var (results, s1) := DeployAllSpec(old(svc.State()), folders, settings, inputs);
      (exitCode, written) == FinishSpec(DeploymentSummary(settings.environment, duration, results), save)
      && svc.State() == s1
  {
    var results := DeployAllWorkspaces(folders, settings, inputs, svc);
    var summary := DeploymentSummary(settings.environment, duration, results);
    var report := BuildDeploymentResultsJson(summary);
    if save.Fail? {
      return EXIT_FAILURE, None;
    }
    if FailedCount(summary) > 0 {
      return EXIT_FAILURE, Some(report);
    }
    return EXIT_SUCCESS, Some(report);
  }

  /** `main`. */
  method RunDeployment(environment: string, workspacesDirectory: string, credential: Outcome<Error>,
                       capacityId: Option<string>, servicePrincipalObjectId: Option<string>, entraAdminGroupId: Option<string>,
                       root: Directory, inputs: string -> FolderInputs, duration: real, save: Outcome<Error>, svc: FabricService)
    returns (exitCode: int, written: Option<ResultsJson>)
    modifies svc
    ensures (exitCode, written, svc.State())
      == MainSpec(old(svc.State()), environment, workspacesDirectory, credential, capacityId, servicePrincipalObjectId,
                  entraAdminGroupId, root, inputs, duration, save)
  {
    var valid := ValidateEnvironment(environment);
    if valid.Fail? || credential.Fail? {
      return EXIT_FAILURE, None;
    }
    var folders := DiscoverWorkspaceFolders(root, workspacesDirectory, CONFIG_FILE);
    if folders.Err? {
      return EXIT_FAILURE, None;
    }
    var settings := RunSettings(environment, workspacesDirectory, capacityId, servicePrincipalObjectId, entraAdminGroupId);
    exitCode, written := DeployDiscovered(folders.value, settings, inputs, duration, save, svc);
  }
}
