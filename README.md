# fabric-orchestrator core, modelled in Dafny

This project models the deployment orchestrator that publishes a set of Microsoft
Fabric workspaces from a repository, and the workspace lifecycle manager it calls.

The orchestrator runs in this order:

1. It validates the stage name (`dev`, `test`, `prod`, in any letter case).
2. It discovers the workspace folders: subdirectories of the workspaces root that hold `config.yml`.
3. For each folder in sorted order, it reads the stage's workspace name from `core.workspace.<stage>`.
4. It ensures that workspace exists with the right administrators.
5. It deploys the folder's items.
6. It records one result per folder, never aborting the batch.
7. It writes a JSON report sorted by folder name.
8. It exits with 1 exactly when something failed.

The lifecycle manager does four things:

- It looks a workspace up by exact display name.
- It creates the workspace when there is no match, which needs a capacity id.
- It grants the Admin role to the deploying service principal and to an optional
  directory group.
- It checks the existing role assignments first, so a repeated run changes nothing.

Modules:

- `Common` (common.dfy): option and result types, the Python exception kinds, Python
  truthiness of an optional string, and the text `str(e)` of an exception.
- `Ordering` (ordering.dfy): Python's order on strings and a stable sort by key. Proved:
  the result is ordered, a permutation, stable for equal keys, and keeps the count of
  any property.
- `Config` (config.dfy): loading a folder's configuration file, and the nested
  `core.workspace.<stage>` lookup with its KeyError rewrite.
- `Discovery` (discovery.dfy): finding the workspace folders.
- `WorkspaceManager` (workspace_manager.dfy): the remote Fabric service and the
  lifecycle manager.
  - The service is the class `FabricService`. It holds the workspace list, the set of
    role assignments and a counter of mutating calls (create and add). Its fixed
    per-endpoint faults model HTTP errors with an optional status code.
  - Every manager function is a module-level method that takes the service as its
    `svc` argument. Its result and the service's new state equal a pure function of
    the old state (`LookupSpec`, `CreateSpec`, `RoleCheckSpec`, `AssignRoleSpec`,
    `FindOrCreateSpec`, `GrantAdminsSpec`, `EnsureSpec`).
  - The idempotence properties are lemmas about those functions.
- `Deployment` (deployment.dfy): the per-folder deployment and the continue-on-failure
  loop over all folders, both as module-level methods that take the service as an
  argument. Also the summary counts and the JSON report.
- `Cli` (cli.dfy): stage validation and the `main` flow with its exit code.

The repository keeps two nearly identical copies of this logic, under `scripts/` and
under `src/fabric_orchestrator/`. The model covers both.

- `scripts/deploy_to_fabric.py` repeats the following, with `config.yml` fixed as the
  configuration file name. The model passes the name as a parameter; the script copy
  is the case where it is `config.yml`.
  - `DeploymentResult` and `DeploymentSummary` (lines 44-72).
  - `load_workspace_config` and `get_workspace_name_from_config` (75-119).
  - `get_workspace_folders` (126-152).
  - `deploy_workspace` (155-230).
  - `discover_workspace_folders` (259-277).
  - `build_deployment_results_json` (280-314).
  - `validate_environment` (356-368).
  - `deploy_all_workspaces` (371-412).
  - `main` (415-513).
- The script's `main` builds and writes the report inline. The `src` copy does the same
  through `save_deployment_results`.

Behaviour worth knowing in advance:

- Two workspaces with the same display name are not an error. The lookup returns the
  id of the first one listed.
- A folder needs only the configuration file to be discovered.
- Subscripting a configuration value that is not a mapping raises the TypeError of
  the value's Python type, worded as Python 3.11 and later word it. An empty file
  loads as `None`, so it gives "'NoneType' object is not subscriptable".
- Any truthy id counts as found. A workspace found with an empty id is therefore
  created again, as the code's `if workspace_id:` does.

## Model

| member | source | states |
|---|---|---|
| Common.QuotedRepr | src/fabric_orchestrator/deployment.py:177 | the text of a KeyError is its message in quotes, double quotes exactly when the message has a single quote and no double quote |
| Common.ExceptionText | src/fabric_orchestrator/deployment.py:177 | `str(e)` is the exception's message, except that a KeyError's message comes back quoted |
| Ordering.LexLeTotal | src/fabric_orchestrator/deployment.py:353 | any two strings are comparable under Python's string order |
| Ordering.LexLeTransitive | src/fabric_orchestrator/deployment.py:353 | Python's string order is transitive |
| Ordering.LexLeAntisymmetric | src/fabric_orchestrator/deployment.py:353 | two strings each at most the other are equal |
| Ordering.LexLeIffFirstDifference | src/fabric_orchestrator/deployment.py:353 | `LexLe` holds exactly when `PrefixOrFirstSmaller` does: the first string is a prefix of the second, or has the smaller code point at their first difference, the order Python's `str` comparison uses |
| Ordering.SortBySortsAndPermutes | src/fabric_orchestrator/deployment.py:353 | sorting by key yields ascending keys, the same multiset of elements and the same length |
| Ordering.SortByIsStable | src/fabric_orchestrator/deployment.py:353 | for every key, the elements with that key keep their input order |
| Ordering.SortByKeepsCount | src/fabric_orchestrator/deployment.py:353 | sorting keeps the number of elements satisfying any property |
| Config.LoadWorkspaceConfig | src/fabric_orchestrator/config.py:38-45 | a missing file gives FileNotFoundError "<file> not found in <folder>"; a malformed one gives the YAML error; otherwise the parsed document is returned |
| Config.Index | src/fabric_orchestrator/config.py:69 | subscripting a mapping gives the key's value, or a KeyError whose message is the key; subscripting any other value gives the TypeError of its Python type |
| Config.GetWorkspaceNameFromConfig | src/fabric_orchestrator/config.py:69-76 | the name is returned exactly when `core`, `workspace` and the stage lead to it; a missing key at any level is the one KeyError naming the stage; every error is a KeyError or a TypeError |
| Config.ResolveWorkspaceName | src/fabric_orchestrator/deployment.py:146-147 | a file that is missing or malformed stops resolution with exactly the error loading raises (FileNotFoundError naming file and folder, or the YAML error); a parsed file resolves exactly as the lookup does |
| Discovery.WorkspaceFolderNames | src/fabric_orchestrator/discovery.py:40-44 | a name is kept exactly when some listed entry with that name is a directory holding the given configuration file |
| Discovery.GetWorkspaceFolders | src/fabric_orchestrator/discovery.py:35-52 | a missing root gives FileNotFoundError; a present root with no workspace folder gives ValueError; a present root with some workspace folder gives Ok, and the result is then non-empty, sorted, the qualifying names with their multiplicities, and nothing else |
| Discovery.DiscoverWorkspaceFolders | src/fabric_orchestrator/discovery.py:78-80 | returns exactly what folder discovery returns, errors included |
| WorkspaceManager.FirstMatch | scripts/fabric_workspace_manager.py:34-39 | the id of the first listed workspace whose display name equals the query exactly, and None exactly when no name matches |
| WorkspaceManager.FabricService.ListWorkspaces | scripts/fabric_workspace_manager.py:32 | the listing endpoint answers the workspaces in order, or its standing HTTP fault |
| WorkspaceManager.LookupSpec | scripts/fabric_workspace_manager.py:30-41 | with a working listing endpoint the answer is the first match; a listing fault gives exactly "Failed to list workspaces: " followed by the error's text |
| WorkspaceManager.CheckWorkspaceExists | scripts/fabric_workspace_manager.py:18-41 | the early-return loop over the listing answers the lookup exactly |
| WorkspaceManager.FirstMatchAppend | scripts/fabric_workspace_manager.py:34-39 | appending a workspace to a listing with no match makes the lookup find exactly the appended one when its name matches |
| WorkspaceManager.CreateFailure | scripts/fabric_workspace_manager.py:80-97 | 400, 403 and 404 become the invalid-request, missing-permission and invalid-capacity messages; any other status, or none, is re-raised unchanged |
| WorkspaceManager.FabricService.CreateWorkspace | scripts/fabric_workspace_manager.py:68-69 | the create endpoint counts one mutating call, and either answers its fault with nothing listed or lists the named workspace with the issued id and answers that id |
| WorkspaceManager.CreateSpec | scripts/fabric_workspace_manager.py:58-97 | without a capacity id it fails with the capacity-required message and calls nothing; otherwise it makes one create call; a create fault gives the mapped error and nothing is listed; a working endpoint lists the new workspace and returns its id when non-empty, and the missing-id error when empty; success always means a non-empty issued id; role assignments never change |
| WorkspaceManager.CreateWorkspace | scripts/fabric_workspace_manager.py:44-97 | the method's result and new service state are those of the create step |
| WorkspaceManager.HasRoleIffAssigned | scripts/fabric_workspace_manager.py:116-118 | a workspace's listing has an assignment matching both the principal and the role exactly when that triple is held; another role of the same principal does not count |
| WorkspaceManager.FabricService.ListWorkspaceRoleAssignments | scripts/fabric_workspace_manager.py:116 | the listing endpoint answers the assignments of the given workspace, or its standing HTTP fault |
| WorkspaceManager.RoleCheckSpec | scripts/fabric_workspace_manager.py:100-120 | the check fails exactly when listing fails, and otherwise answers whether the (workspace, principal, role) assignment exists |
| WorkspaceManager.CheckRoleAssignmentExists | scripts/fabric_workspace_manager.py:100-120 | the method answers the role check exactly |
| WorkspaceManager.AddFailure | scripts/fabric_workspace_manager.py:170-183 | a 404 on add is "Invalid <principal> Object ID" with the hint for that principal type; anything else is "<principal> role assignment failed" |
| WorkspaceManager.FabricService.AddWorkspaceRoleAssignment | scripts/fabric_workspace_manager.py:164-167 | the add endpoint counts one mutating call and answers its fault; without a fault the (workspace, principal, role) assignment is added; workspaces never change |
| WorkspaceManager.AssignRoleSpec | scripts/fabric_workspace_manager.py:147-183 | an unset principal makes no call; a listing fault fails with the listing error and no call; a present assignment passes with no add; an absent one is added with one call, or fails with the add error (the 404 Object ID hint or the generic text) when adding faults; assignments only grow, by at most that one; a pass leaves it present |
| WorkspaceManager.AssignRoleChecked | scripts/fabric_workspace_manager.py:123-183 | the method's result and new state are those of the role step |
| WorkspaceManager.AddWorkspaceAdmin | scripts/fabric_workspace_manager.py:186-206 | the role step for Admin, as a service principal described as "Service Principal" |
| WorkspaceManager.AddEntraIdGroupAdmin | scripts/fabric_workspace_manager.py:209-227 | the role step for Admin, as a group described as "Entra ID group" |
| WorkspaceManager.AssignWorkspaceRole | scripts/fabric_workspace_manager.py:230-260 | the role step for any role, described by the principal type |
| WorkspaceManager.FindOrCreateSpec | scripts/fabric_workspace_manager.py:292-298 | a lookup error is returned unchanged; a usable id found is returned with nothing changed; when the lookup finds no usable id the result and state are exactly those of creating the workspace; success means a non-empty id of a workspace with that name |
| WorkspaceManager.FindOrCreateWorkspace | scripts/fabric_workspace_manager.py:292-298 | the method's result and new state are those of find-or-create |
| WorkspaceManager.GrantAdminsSpec | scripts/fabric_workspace_manager.py:300-302 | the service principal's step runs first; its failure is returned at once with its state; otherwise the result is the group's step on the state it left, so both passing is a pass; a pass means both configured principals hold Admin; workspaces never change |
| WorkspaceManager.EnsureSpec | scripts/fabric_workspace_manager.py:263-309 | a lookup or create error comes back verbatim with the state find-or-create left; after a found or created id, a failing admin step's error is returned, and otherwise the id; creation only when the lookup found no usable id, appending exactly one workspace; an existing id is returned unchanged; success gives a non-empty id on which both configured principals hold Admin |
| WorkspaceManager.EnsureSucceedsOnWorkingService | scripts/fabric_workspace_manager.py:292-305 | with every endpoint working, ensuring succeeds when the lookup finds a usable id, returning it, or when a capacity id lets creation issue a non-empty id, returning that |
| WorkspaceManager.EnsureWorkspaceExists | scripts/fabric_workspace_manager.py:263-309 | the method's result and new state are those of the ensure spec |
| WorkspaceManager.EnsureOnReadyWorkspaceIsNoOp | scripts/fabric_workspace_manager.py:292-305 | against a ready workspace the existing id comes back and the service is untouched, with no mutating call |
| WorkspaceManager.EnsureIsIdempotent | scripts/fabric_workspace_manager.py:292-305 | after a successful run the workspace is ready, and a second run returns the same id and changes nothing |
| WorkspaceManager.AssignRoleIsIdempotent | scripts/fabric_workspace_manager.py:156-167 | after a passing role step, repeating it passes with no call that changes anything |
| Deployment.CountsPartition | src/fabric_orchestrator/deployment.py:60-68 | successful plus failed results number all results |
| Deployment.NoFailedMeansAllSucceeded | src/fabric_orchestrator/deployment.py:65-68 | no failed result exactly when every result succeeded |
| Deployment.SummaryCounts | src/fabric_orchestrator/deployment.py:55-68 | `TotalWorkspaces`, `SuccessfulCount` and `FailedCount` satisfy successful_count + failed_count == total_workspaces, for any results including none; no failure exactly when all succeeded |
| Deployment.FailedResult | src/fabric_orchestrator/deployment.py:176-185 | a failed result keeps the folder, carries `str(e)`, and names the resolved workspace when non-empty, the folder otherwise |
| Deployment.DeployWorkspaceSpec | src/fabric_orchestrator/deployment.py:139-185 | every folder's result names that folder |
| Deployment.DeployWorkspaceOutcome | src/fabric_orchestrator/deployment.py:139-185 | success exactly when the name resolves, the client is built, the workspace is ensured and the items deploy; success carries the name and an empty message; every failure is the failed result of the first step's exception (name resolution, client, ensure, item deployment), named by the workspace or else the folder; the service changes only by ensuring |
| Deployment.DeployWorkspace | src/fabric_orchestrator/deployment.py:90-185 | the method never raises, and its result and new state are those of the per-folder spec |
| Deployment.DeployAllSpec | src/fabric_orchestrator/deployment.py:229-248 | one result per folder, in input order, result i naming folder i; no folders give no results and no change |
| Deployment.DeployAllRunsEveryFolder | src/fabric_orchestrator/deployment.py:229-248 | result i is what deploying folder i gives on the state the earlier folders left, whatever their outcome |
| Deployment.DeployAllWorkspaces | src/fabric_orchestrator/deployment.py:188-248 | the append loop's results and new state are those of deploying every folder in order |
| Deployment.ToRecord | src/fabric_orchestrator/deployment.py:341-348 | a record copies folder, workspace name and error, with status "success" or "failure" mirroring the flag |
| Deployment.Records | src/fabric_orchestrator/deployment.py:339-350 | one record per result, in result order |
| Deployment.RecordsCountSuccesses | src/fabric_orchestrator/deployment.py:339-350 | the records with status "success" are as many as the successful results |
| Deployment.BuildDeploymentResultsJson | src/fabric_orchestrator/deployment.py:304-364 | the counts equal the summary's; the records are sorted by folder name, a permutation of the results' records, stable for equal names; the "success" records number the successful count |
| Cli.LowerChar | src/fabric_orchestrator/deploy_to_fabric.py:53 | upper-case ASCII letters map to lower case; every other character is kept |
| Cli.Lower | src/fabric_orchestrator/deploy_to_fabric.py:53 | lowering keeps the length and lowers each character |
| Cli.LowerIsIdempotent | src/fabric_orchestrator/deploy_to_fabric.py:53 | lowering twice equals lowering once |
| Cli.ValidateEnvironment | src/fabric_orchestrator/deploy_to_fabric.py:44-56 | accepted exactly when the lower-cased name is dev, test or prod; otherwise a ValueError naming the input |
| Cli.ValidationIgnoresCase | src/fabric_orchestrator/deploy_to_fabric.py:53-56 | names that lower alike are both accepted or both rejected |
| Cli.SortedStages | src/fabric_orchestrator/deploy_to_fabric.py:55 | the stages sort as dev, prod, test |
| Cli.InvalidEnvironmentMessageListsSortedStages | src/fabric_orchestrator/deploy_to_fabric.py:54-56 | the rejection message, built with `Join` over the sorted stages, ends "Must be one of: dev, prod, test" |
| Cli.ValidationExamples | scripts/deploy_to_fabric.py:365-368 | "DEV", "Test" and "prod" pass; "staging", "" and "dev " fail |
| Cli.FinishExitCode | src/fabric_orchestrator/deploy_to_fabric.py:136-147 | `FinishSpec`, the part of `main` after deployment: the exit code is 0 or 1, and 0 exactly when the report is written and every folder succeeded; a written report counts every folder |
| Cli.ExitCodeRule | src/fabric_orchestrator/deploy_to_fabric.py:100-154 | `MainSpec`, the whole of `main`: exit 0 exactly when validation, authentication, discovery and the report write pass and every folder deploys; an earlier failure exits 1 with no report and an untouched service |
| Cli.DeployDiscovered | src/fabric_orchestrator/deploy_to_fabric.py:119-147 | deploying, reporting and choosing the exit code agree with the specification of that part of `main` |
| Cli.RunDeployment | src/fabric_orchestrator/deploy_to_fabric.py:59-154 | the exit code, the written report and the new service state are those `main` specifies |

## Left out

- Credential creation (`auth.py`, `create_azure_credential`) is not modelled. It is a call into the Azure identity library and enters as a pass-or-fail input of `Cli.RunDeployment`.
- `create_fabric_client` and the SDK request objects are not modelled. The client is the `FabricService` class. Whether building it raises is a per-folder input.
- The item deployment by `fabric_cicd.deploy_with_config` is an opaque per-folder outcome. That includes identifier rewriting and unpublishing orphans, whose code is not part of this model.
- The file-system reads are inputs: the directory listing and whether the configuration file exists.
- YAML parsing is an input: a configuration file is absent, malformed or an already parsed document.
- JSON writing, `save_deployment_results` and `open`/`json.dump` are not modelled. Whether the write succeeds is an input.
- Process exit is represented by the returned code.
- Command-line parsing is not modelled. It already restricts the stage to the exact lower-case names before `main`'s own validation. `Cli.RunDeployment` takes the stage as given.
- stdout reconfiguration, feature flags and the debug log level are left out; they affect only output.
- Logging, `print_deployment_summary` and `_print_troubleshooting_hints` are left out. They only print.
- `duration` is an opaque real number. The wall clock and `time.time()` are not modelled.
- `src/fabric_orchestrator/cli.py` and `__init__.py` are not part of this model. They are plumbing and re-exports.
- The constants of `deployment_config.py` are inlined.
- Cli.LowerChar: lowers ASCII letters only, not the full Unicode case mapping of `str.lower`.
- Cli.Lower: lowers ASCII letters only, through `Cli.LowerChar`.
- Common.QuotedRepr: models only the choice of quote character of `repr`, not the escaping of backslashes, quotes or control characters.
- Config.GetWorkspaceNameFromConfig: a stage entry that is not a string (a number, a boolean, null) is returned as its text, where the code returns the Python value itself. A stage entry that is itself a mapping is reported as a TypeError; the code would return the mapping as the "name" and fail later.
- Config.Index: the TypeError texts are those of Python 3.11 and later; earlier versions word the string case without ", not 'str'".
- The root of discovery being a plain file rather than a directory is not modelled.
- The service's faults are fixed per endpoint for a whole run, and the create endpoint always reports the same id, so two folders that both need a new workspace in one run get the same id and the second finds the first one's role assignments. A service whose answers vary from call to call is not modelled.
