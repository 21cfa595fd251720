/** The workspace lifecycle manager: look a workspace up by display name, create it
    on a capacity when it is missing, and make sure the deploying service principal
    and an optional directory group hold the Admin role on it, checking the existing
    role assignments before every change.

    The remote Fabric service is the class `FabricService`. Each operation of the
    manager is a method that calls the service and promises that its result and the
    service's new state are those a pure function of the old state gives
    (`LookupSpec`, `CreateSpec`, `RoleCheckSpec`, `AssignRoleSpec`, `EnsureSpec`);
    the lemmas at the end are about those functions. */
module WorkspaceManager {
  import opened Common

  datatype Workspace = Workspace(displayName: string, id: string)

  datatype RoleAssignment = RoleAssignment(workspaceId: string, principalId: string, role: string)

  datatype PrincipalType = ServicePrincipal | Group

  /** An HTTP error the service answers with: the status code (absent when the error
      carries none) and the text that `str(e)` gives. */
  datatype HttpFailure = HttpFailure(status: Option<int>, text: string)

  /** The standing failure of each endpoint; `None` means it answers normally. */
  datatype Faults = Faults(
    listWorkspaces: Option<HttpFailure>,
    createWorkspace: Option<HttpFailure>,
    listRoleAssignments: Option<HttpFailure>,
    addRoleAssignment: Option<HttpFailure>)

  /** Everything the service holds: its workspaces in listing order, its role
      assignments, how many mutating calls (create or add) it has received, its
      faults, and the id its create endpoint reports ("" for a response without one). */
  datatype ServiceState = ServiceState(
    workspaces: seq<Workspace>,
    assignments: set<RoleAssignment>,
    mutatingCalls: nat,
    faults: Faults,
    issuedId: string)

  const ADMIN: string := "Admin"

  /** The remote Fabric service. */
  class FabricService {
    var workspaces: seq<Workspace>
    var assignments: set<RoleAssignment>
    var mutatingCalls: nat
    const faults: Faults
    const issuedId: string

    function State(): ServiceState
      reads this
    {
      ServiceState(workspaces, assignments, mutatingCalls, faults, issuedId)
    }

    constructor (workspaces: seq<Workspace>, assignments: set<RoleAssignment>, faults: Faults, issuedId: string)
      ensures State() == ServiceState(workspaces, assignments, 0, faults, issuedId)
    {
      this.workspaces := workspaces;
      this.assignments := assignments;
      this.mutatingCalls := 0;
      this.faults := faults;
      this.issuedId := issuedId;
    }

    method ListWorkspaces() returns (r: Result<seq<Workspace>, HttpFailure>)
      ensures faults.listWorkspaces.Some? ==> r == Err(faults.listWorkspaces.value)
      ensures faults.listWorkspaces.None? ==> r == Ok(workspaces)
    {
      if faults.listWorkspaces.Some? {
        return Err(faults.listWorkspaces.value);
      }
      return Ok(workspaces);
    }

    method CreateWorkspace(displayName: string, capacityId: string) returns (r: Result<string, HttpFailure>)
      modifies this
      ensures mutatingCalls == old(mutatingCalls) + 1 && assignments == old(assignments)
      ensures faults.createWorkspace.Some? ==> r == Err(faults.createWorkspace.value) && workspaces == old(workspaces)
      ensures faults.createWorkspace.None? ==>
        r == Ok(issuedId) && workspaces == old(workspaces) + [Workspace(displayName, issuedId)]
    {
      mutatingCalls := mutatingCalls + 1;
      if faults.createWorkspace.Some? {
        return Err(faults.createWorkspace.value);
      }
      workspaces := workspaces + [Workspace(displayName, issuedId)];
      return Ok(issuedId);
    }

    method ListWorkspaceRoleAssignments(workspaceId: string) returns (r: Result<set<RoleAssignment>, HttpFailure>)
      ensures faults.listRoleAssignments.Some? ==> r == Err(faults.listRoleAssignments.value)
      ensures faults.listRoleAssignments.None? ==> r == Ok(AssignmentsOf(assignments, workspaceId))
    {
      if faults.listRoleAssignments.Some? {
        return Err(faults.listRoleAssignments.value);
      }
      return Ok(AssignmentsOf(assignments, workspaceId));
    }

    method AddWorkspaceRoleAssignment(workspaceId: string, principalId: string, principalType: PrincipalType, role: string)
      returns (r: Option<HttpFailure>)
      modifies this
      ensures mutatingCalls == old(mutatingCalls) + 1 && workspaces == old(workspaces)
      ensures r == faults.addRoleAssignment
      ensures r.Some? ==> assignments == old(assignments)
      ensures r.None? ==> assignments == old(assignments) + {RoleAssignment(workspaceId, principalId, role)}
    {
      mutatingCalls := mutatingCalls + 1;
      if faults.addRoleAssignment.Some? {
        return faults.addRoleAssignment;
      }
      assignments := assignments + {RoleAssignment(workspaceId, principalId, role)};
      return None;
    }
  }

  /** The role assignments the service lists for one workspace. */
  function AssignmentsOf(assignments: set<RoleAssignment>, workspaceId: string): set<RoleAssignment>
  {
    set a | a in assignments && a.workspaceId == workspaceId
  }

  // ----- check_workspace_exists -----

  /** The id of the first workspace, in listing order, whose display name equals
      `name` exactly; `None` when no display name does. */
  function FirstMatch(workspaces: seq<Workspace>, name: string): (r: Option<string>)
    ensures r.Some? ==>
      exists i :: 0 <= i < |workspaces| && workspaces[i] == Workspace(name, r.value)
        && forall j :: 0 <= j < i ==> workspaces[j].displayName != name
    ensures r.None? <==> forall i :: 0 <= i < |workspaces| ==> workspaces[i].displayName != name
    decreases |workspaces|
  {
    if |workspaces| == 0 then None
    else if workspaces[0].displayName == name then Some(workspaces[0].id)
    else
      var r := FirstMatch(workspaces[1..], name);
      assert forall i :: 0 < i < |workspaces| ==> workspaces[i] == workspaces[1..][i - 1];
      r
  }

  function ListWorkspacesFailure(f: HttpFailure): Error
  {
    Error(GenericException, "Failed to list workspaces: " + f.text)
  }

  /** What `check_workspace_exists` answers against service state `s`. */
  function LookupSpec(s: ServiceState, name: string): (r: Result<Option<string>, Error>)
    ensures s.faults.listWorkspaces.None? <==> r == Ok(FirstMatch(s.workspaces, name))
    ensures s.faults.listWorkspaces.Some? ==> r == Err(ListWorkspacesFailure(s.faults.listWorkspaces.value))
  {
    match s.faults.listWorkspaces
    case Some(f) => Err(ListWorkspacesFailure(f))
    case None => Ok(FirstMatch(s.workspaces, name))
  }

  /** `check_workspace_exists`: the loop with an early return over the listing. */
  method CheckWorkspaceExists(workspaceName: string, svc: FabricService) returns (r: Result<Option<string>, Error>)
    ensures r == LookupSpec(svc.State(), workspaceName)
  {
    var listing := svc.ListWorkspaces();
    if listing.Err? {
      return Err(ListWorkspacesFailure(listing.error));
    }
    var workspaces := listing.value;
    var i := 0;
    while i < |workspaces|
      invariant 0 <= i <= |workspaces|
      invariant FirstMatch(workspaces[i..], workspaceName) == FirstMatch(workspaces, workspaceName)
    {
      if workspaces[i].displayName == workspaceName {
        return Ok(Some(workspaces[i].id));
      }
      assert workspaces[i..][1..] == workspaces[i + 1..];
      i := i + 1;
    }
    return Ok(None);
  }

  // ----- create_workspace -----

  function CapacityRequiredMessage(workspaceName: string): string
  {
    "Capacity ID is required to auto-create a Fabric workspace. "
    + "Either manually create a workspace named '" + workspaceName + "' in Fabric, "
    + "or set the appropriate FABRIC_CAPACITY_ID_* secret in GitHub to enable auto-creation."
  }

  const MISSING_ID_MESSAGE: string :=
    "Workspace creation succeeded but response did not contain a valid 'id' field. "
    + "Inspect Fabric API response for details."

  const CREATE_PERMISSION_MESSAGE: string :=
    "Service Principal lacks workspace creation permissions.\n\n"
    + "Possible causes:\n"
    + "1. Missing tenant setting: In Fabric Admin Portal → Tenant Settings → Developer Settings, "
    + "enable 'Service principals can create workspaces, connections, and deployment pipelines'\n"
    + "2. Missing capacity admin role: In Azure Portal → Fabric Capacity → Settings → "
    + "Capacity administrators, add the Service Principal (by Client ID or Enterprise Application Object ID)"

  /** The exception `create_workspace` raises for an HTTP error of the create call:
      400, 403 and 404 get their own explanation, any other status (or none) is
      re-raised unchanged. */
  function CreateFailure(f: HttpFailure, capacityId: string): (e: Error)
    ensures f.status == Some(400) ==> e == Error(GenericException, "Invalid workspace creation request: " + f.text)
    ensures f.status == Some(403) ==> e == Error(GenericException, CREATE_PERMISSION_MESSAGE)
    ensures f.status == Some(404) ==>
      e == Error(GenericException, "Invalid capacity ID '" + capacityId + "'. Verify FABRIC_CAPACITY_ID_* secret is correct.")
    ensures f.status !in {Some(400), Some(403), Some(404)} ==> e == Error(HttpResponseError(f.status), f.text)
  {
    if f.status == Some(400) then Error(GenericException, "Invalid workspace creation request: " + f.text)
    else if f.status == Some(403) then Error(GenericException, CREATE_PERMISSION_MESSAGE)
    else if f.status == Some(404) then
      Error(GenericException, "Invalid capacity ID '" + capacityId + "'. Verify FABRIC_CAPACITY_ID_* secret is correct.")
    else Error(HttpResponseError(f.status), f.text)
  }

  /** What `create_workspace` returns and leaves behind. Without a capacity id it fails
      before calling the service; a create call that answers without an id fails;
      otherwise the new workspace is listed and its (non-empty) id returned. */
  function CreateSpec(s: ServiceState, workspaceName: string, capacityId: Option<string>): (out: (Result<string, Error>, ServiceState))
    ensures !Truthy(capacityId) ==> out == (Err(Error(GenericException, CapacityRequiredMessage(workspaceName))), s)
    ensures Truthy(capacityId) ==> out.1.mutatingCalls == s.mutatingCalls + 1
    ensures out.1 == s.(workspaces := out.1.workspaces, mutatingCalls := out.1.mutatingCalls)
    ensures out.1.workspaces == s.workspaces || out.1.workspaces == s.workspaces + [Workspace(workspaceName, s.issuedId)]
    ensures out.0.Ok? ==> out.0.value == s.issuedId != "" && out.1.workspaces == s.workspaces + [Workspace(workspaceName, s.issuedId)]
    ensures Truthy(capacityId) && s.faults.createWorkspace.Some? ==>
      out == (Err(CreateFailure(s.faults.createWorkspace.value, capacityId.value)), s.(mutatingCalls := s.mutatingCalls + 1))
    ensures Truthy(capacityId) && s.faults.createWorkspace.None? ==>
      out.1 == s.(workspaces := s.workspaces + [Workspace(workspaceName, s.issuedId)], mutatingCalls := s.mutatingCalls + 1)
    ensures Truthy(capacityId) && s.faults.createWorkspace.None? && s.issuedId != "" ==> out.0 == Ok(s.issuedId)
    ensures Truthy(capacityId) && s.faults.createWorkspace.None? && s.issuedId == "" ==>
      out.0 == Err(Error(GenericException, MISSING_ID_MESSAGE))
  {
    if !Truthy(capacityId) then
      (Err(Error(GenericException, CapacityRequiredMessage(workspaceName))), s)
    else
      var called := s.(mutatingCalls := s.mutatingCalls + 1);
      match s.faults.createWorkspace
      case Some(f) => (Err(CreateFailure(f, capacityId.value)), called)
      case None =>
        var created := called.(workspaces := s.workspaces + [Workspace(workspaceName, s.issuedId)]);
        if s.issuedId == "" then (Err(Error(GenericException, MISSING_ID_MESSAGE)), created)
        else (Ok(s.issuedId), created)
  }

  /** `create_workspace`. */
  method CreateWorkspace(workspaceName: string, capacityId: Option<string>, svc: FabricService) returns (r: Result<string, Error>)
    modifies svc
    ensures (r, svc.State()) == CreateSpec(old(svc.State()), workspaceName, capacityId)
  {
    if !Truthy(capacityId) {
      return Err(Error(GenericException, CapacityRequiredMessage(workspaceName)));
    }
    var response := svc.CreateWorkspace(workspaceName, capacityId.value);
    if response.Err? {
      return Err(CreateFailure(response.error, capacityId.value));
    }
    if response.value == "" {
      return Err(Error(GenericException, MISSING_ID_MESSAGE));
    }
    return Ok(response.value);
  }

  // ----- check_role_assignment_exists -----

  /** `any(...)` over a listing: some assignment matches both the principal and the role. */
  predicate HasRole(listing: set<RoleAssignment>, principalId: string, role: string)
  {
    exists a :: a in listing && a.principalId == principalId && a.role == role
  }

  /** The listing of a workspace holds a matching assignment exactly when the service
      holds that (workspace, principal, role) triple; the same principal with another
      role does not count. */
  lemma HasRoleIffAssigned(assignments: set<RoleAssignment>, workspaceId: string, principalId: string, role: string)
    ensures HasRole(AssignmentsOf(assignments, workspaceId), principalId, role)
      <==> RoleAssignment(workspaceId, principalId, role) in assignments
  {
    var triple := RoleAssignment(workspaceId, principalId, role);
    if triple in assignments {
      assert triple in AssignmentsOf(assignments, workspaceId);
    }
  }

  function ListRoleAssignmentsFailure(f: HttpFailure): Error
  {
    Error(GenericException, "Failed to list workspace role assignments: " + f.text)
  }

  /** What `check_role_assignment_exists` answers against service state `s`. */
  function RoleCheckSpec(s: ServiceState, workspaceId: string, principalId: string, role: string): (r: Result<bool, Error>)
    ensures s.faults.listRoleAssignments.Some? <==> r.Err?
    ensures r.Ok? ==> (r.value <==> RoleAssignment(workspaceId, principalId, role) in s.assignments)
  {
    HasRoleIffAssigned(s.assignments, workspaceId, principalId, role);
    match s.faults.listRoleAssignments
    case Some(f) => Err(ListRoleAssignmentsFailure(f))
    case None => Ok(HasRole(AssignmentsOf(s.assignments, workspaceId), principalId, role))
  }

  /** `check_role_assignment_exists`. */
  method CheckRoleAssignmentExists(workspaceId: string, principalId: string, role: string, svc: FabricService)
    returns (r: Result<bool, Error>)
    ensures r == RoleCheckSpec(svc.State(), workspaceId, principalId, role)
  {
    var listing := svc.ListWorkspaceRoleAssignments(workspaceId);
    if listing.Err? {
      return Err(ListRoleAssignmentsFailure(listing.error));
    }
    var found := exists a :: a in listing.value && a.principalId == principalId && a.role == role;
    return Ok(found);
  }

  // ----- _assign_workspace_role and its three callers -----

  function ObjectIdHint(principalType: PrincipalType): string
  {
    if principalType == ServicePrincipal then "Service Principal Object ID (not Client ID)"
    else "Entra ID group Object ID"
  }

  /** The exception `_assign_workspace_role` raises for an HTTP error of the add call:
      404 means the object id is wrong; anything else is a failed assignment. */
  function AddFailure(f: HttpFailure, principalId: string, principalType: PrincipalType, description: string): (e: Error)
    ensures e.kind == GenericException
    ensures f.status == Some(404) ==>
      e.message == "Invalid " + description + " Object ID '" + principalId + "'. "
        + "Verify the secret contains a valid " + ObjectIdHint(principalType) + ". "
        + "Find it in Azure Portal → Azure Active Directory."
    ensures f.status != Some(404) ==> e.message == description + " role assignment failed: " + f.text
  {
    if f.status == Some(404) then
      Error(GenericException, "Invalid " + description + " Object ID '" + principalId + "'. "
        + "Verify the secret contains a valid " + ObjectIdHint(principalType) + ". "
        + "Find it in Azure Portal → Azure Active Directory.")
    else Error(GenericException, description + " role assignment failed: " + f.text)
  }

  /** What `_assign_workspace_role` returns and leaves behind. An unset principal is
      skipped without any call; an assignment already present is left alone; only a
      missing one is added, and then it is present. */
  function AssignRoleSpec(s: ServiceState, workspaceId: string, principalId: Option<string>, principalType: PrincipalType,
                          role: string, description: string): (out: (Outcome<Error>, ServiceState))
    ensures !Truthy(principalId) ==> out == (Pass, s)
    ensures out.1 == s.(assignments := out.1.assignments, mutatingCalls := out.1.mutatingCalls)
    ensures out.1.mutatingCalls == s.mutatingCalls || out.1.mutatingCalls == s.mutatingCalls + 1
    ensures out.1.mutatingCalls == s.mutatingCalls + 1 ==>
      Truthy(principalId) && RoleAssignment(workspaceId, principalId.value, role) !in s.assignments
    ensures (Truthy(principalId) && s.faults.listRoleAssignments.None?
             && RoleAssignment(workspaceId, principalId.value, role) in s.assignments) ==> out == (Pass, s)
    ensures s.assignments <= out.1.assignments
    ensures out.1.assignments <= s.assignments + (if Truthy(principalId) then {RoleAssignment(workspaceId, principalId.value, role)} else {})
    ensures out.0.Pass? && Truthy(principalId) ==>
      s.faults.listRoleAssignments.None? && RoleAssignment(workspaceId, principalId.value, role) in out.1.assignments
    ensures Truthy(principalId) && s.faults.listRoleAssignments.Some? ==>
      out == (Fail(ListRoleAssignmentsFailure(s.faults.listRoleAssignments.value)), s)
    ensures (Truthy(principalId) && s.faults.listRoleAssignments.None?
             && RoleAssignment(workspaceId, principalId.value, role) !in s.assignments) ==>
      match s.faults.addRoleAssignment
      case None =>
        out == (Pass, s.(assignments := s.assignments + {RoleAssignment(workspaceId, principalId.value, role)},
                         mutatingCalls := s.mutatingCalls + 1))
      case Some(f) =>
        out == (Fail(AddFailure(f, principalId.value, principalType, description)), s.(mutatingCalls := s.mutatingCalls + 1))
  {
    if !Truthy(principalId) then (Pass, s)
    else
      var check := RoleCheckSpec(s, workspaceId, principalId.value, role);
      if check.Err? then (Fail(check.error), s)
      else if check.value then (Pass, s)
      else
        var called := s.(mutatingCalls := s.mutatingCalls + 1);
        match s.faults.addRoleAssignment
        case Some(f) => (Fail(AddFailure(f, principalId.value, principalType, description)), called)
        case None =>
          (Pass, called.(assignments := s.assignments + {RoleAssignment(workspaceId, principalId.value, role)}))
  }

  /** `_assign_workspace_role`. */
  method AssignRoleChecked(workspaceId: string, principalId: Option<string>, principalType: PrincipalType,
                           role: string, svc: FabricService, description: string) returns (r: Outcome<Error>)
    modifies svc
    ensures (r, svc.State()) == AssignRoleSpec(old(svc.State()), workspaceId, principalId, principalType, role, description)
  {
    if !Truthy(principalId) {
      return Pass;
    }
    var exists_ := CheckRoleAssignmentExists(workspaceId, principalId.value, role, svc);
    if exists_.Err? {
      return Fail(exists_.error);
    }
    if exists_.value {
      return Pass;
    }
    var failure := svc.AddWorkspaceRoleAssignment(workspaceId, principalId.value, principalType, role);
    if failure.Some? {
      return Fail(AddFailure(failure.value, principalId.value, principalType, description));
    }
    return Pass;
  }

  /** `add_workspace_admin`: Admin for the deploying service principal. */
  method AddWorkspaceAdmin(workspaceId: string, servicePrincipalObjectId: Option<string>, svc: FabricService)
    returns (r: Outcome<Error>)
    modifies svc
    ensures (r, svc.State())
      == AssignRoleSpec(old(svc.State()), workspaceId, servicePrincipalObjectId, ServicePrincipal, ADMIN, "Service Principal")
  {
    r := AssignRoleChecked(workspaceId, servicePrincipalObjectId, ServicePrincipal, ADMIN, svc, "Service Principal");
  }

  /** `add_entra_id_group_admin`: Admin for the optional directory group. */
  method AddEntraIdGroupAdmin(workspaceId: string, entraGroupId: Option<string>, svc: FabricService)
    returns (r: Outcome<Error>)
    modifies svc
    ensures (r, svc.State()) == AssignRoleSpec(old(svc.State()), workspaceId, entraGroupId, Group, ADMIN, "Entra ID group")
  {
    r := AssignRoleChecked(workspaceId, entraGroupId, Group, ADMIN, svc, "Entra ID group");
  }

  /** `assign_workspace_role`: any role for a principal that is always given. */
  method AssignWorkspaceRole(workspaceId: string, principalId: string, role: string, svc: FabricService,
                             principalType: PrincipalType) returns (r: Outcome<Error>)
    modifies svc
    ensures (r, svc.State()) == AssignRoleSpec(old(svc.State()), workspaceId, Some(principalId), principalType, role,
                                               if principalType == ServicePrincipal then "Service Principal" else "Group")
  {
    var description := if principalType == ServicePrincipal then "Service Principal" else "Group";
    r := AssignRoleChecked(workspaceId, Some(principalId), principalType, role, svc, description);
  }

  // ----- ensure_workspace_exists -----

  /** The first half of `ensure_workspace_exists`: the id of the workspace named
      `workspaceName`, found by the lookup or, when the lookup gives no usable id,
      created. */
  function FindOrCreateSpec(s: ServiceState, workspaceName: string, capacityId: Option<string>): (out: (Result<string, Error>, ServiceState))
    ensures LookupSpec(s, workspaceName).Err? ==> out == (Err(LookupSpec(s, workspaceName).error), s)
    ensures out.1 == s.(workspaces := out.1.workspaces, mutatingCalls := out.1.mutatingCalls)
    ensures out.0.Ok? ==> out.0.value != "" && Workspace(workspaceName, out.0.value) in out.1.workspaces
    ensures LookupSpec(s, workspaceName).Ok? && Truthy(LookupSpec(s, workspaceName).value) ==>
      out == (Ok(LookupSpec(s, workspaceName).value.value), s)
    ensures LookupSpec(s, workspaceName).Ok? && !Truthy(LookupSpec(s, workspaceName).value) ==>
      out == CreateSpec(s, workspaceName, capacityId)
    ensures out.1.workspaces != s.workspaces ==>
      LookupSpec(s, workspaceName).Ok? && !Truthy(LookupSpec(s, workspaceName).value)
      && out.1.workspaces == s.workspaces + [Workspace(workspaceName, s.issuedId)]
  {
    var lookup := LookupSpec(s, workspaceName);
    if lookup.Err? then (Err(lookup.error), s)
    else if Truthy(lookup.value) then
      var i :| 0 <= i < |s.workspaces| && s.workspaces[i] == Workspace(workspaceName, lookup.value.value);
      (Ok(lookup.value.value), s)
    else
      var out := CreateSpec(s, workspaceName, capacityId);
      assert out.0.Ok? ==> out.1.workspaces[|s.workspaces|] == Workspace(workspaceName, out.0.value);
      out
  }

  /** The second half of `ensure_workspace_exists`: Admin for the service principal,
      then for the group, stopping at the first failure. */
  function GrantAdminsSpec(s: ServiceState, workspaceId: string, servicePrincipalObjectId: Option<string>,
                           entraAdminGroupId: Option<string>): (out: (Outcome<Error>, ServiceState))
    ensures out.1 == s.(assignments := out.1.assignments, mutatingCalls := out.1.mutatingCalls)
    ensures s.assignments <= out.1.assignments
    ensures out.0.Pass? && Truthy(servicePrincipalObjectId) ==>
      s.faults.listRoleAssignments.None? && RoleAssignment(workspaceId, servicePrincipalObjectId.value, ADMIN) in out.1.assignments
    ensures out.0.Pass? && Truthy(entraAdminGroupId) ==>
      s.faults.listRoleAssignments.None? && RoleAssignment(workspaceId, entraAdminGroupId.value, ADMIN) in out.1.assignments
    ensures var (admin, s1) := AssignRoleSpec(s, workspaceId, servicePrincipalObjectId, ServicePrincipal, ADMIN, "Service Principal");
      && (admin.Fail? ==> out == (admin, s1))
      && (admin.Pass? ==> out == AssignRoleSpec(s1, workspaceId, entraAdminGroupId, Group, ADMIN, "Entra ID group"))
  {
    var (admin, s1) := AssignRoleSpec(s, workspaceId, servicePrincipalObjectId, ServicePrincipal, ADMIN, "Service Principal");
    if admin.Fail? then (admin, s1)
    else AssignRoleSpec(s1, workspaceId, entraAdminGroupId, Group, ADMIN, "Entra ID group")
  }

  /** What `ensure_workspace_exists` returns and leaves behind: look up, create only
      when the lookup found no usable id, then grant Admin to the service principal and
      then to the group on the resulting id; the first error is returned as raised. */
  function EnsureSpec(s: ServiceState, workspaceName: string, capacityId: Option<string>,
                      servicePrincipalObjectId: Option<string>, entraAdminGroupId: Option<string>): (out: (Result<string, Error>, ServiceState))
    ensures LookupSpec(s, workspaceName).Err? ==> out == (Err(LookupSpec(s, workspaceName).error), s)
    ensures out.1.faults == s.faults && out.1.issuedId == s.issuedId && s.assignments <= out.1.assignments
    ensures out.0.Ok? ==> out.0.value != "" && Workspace(workspaceName, out.0.value) in out.1.workspaces
    ensures out.0.Ok? && Truthy(servicePrincipalObjectId) ==>
      RoleAssignment(out.0.value, servicePrincipalObjectId.value, ADMIN) in out.1.assignments
    ensures out.0.Ok? && Truthy(entraAdminGroupId) ==>
      RoleAssignment(out.0.value, entraAdminGroupId.value, ADMIN) in out.1.assignments
    ensures LookupSpec(s, workspaceName).Ok? && Truthy(LookupSpec(s, workspaceName).value) ==>
      out.1.workspaces == s.workspaces && (out.0.Ok? ==> Some(out.0.value) == LookupSpec(s, workspaceName).value)
    ensures out.1.workspaces != s.workspaces ==>
      LookupSpec(s, workspaceName).Ok? && !Truthy(LookupSpec(s, workspaceName).value)
      && out.1.workspaces == s.workspaces + [Workspace(workspaceName, s.issuedId)]
    ensures var (found, s1) := FindOrCreateSpec(s, workspaceName, capacityId);
      && (found.Err? ==> out == (found, s1))
      && (found.Ok? ==>
            var (granted, s2) := GrantAdminsSpec(s1, found.value, servicePrincipalObjectId, entraAdminGroupId);
            out == (if granted.Fail? then Err(granted.error) else Ok(found.value), s2))
  {
    var (found, s1) := FindOrCreateSpec(s, workspaceName, capacityId);
    if found.Err? then (found, s1)
    else
      var (granted, s2) := GrantAdminsSpec(s1, found.value, servicePrincipalObjectId, entraAdminGroupId);
      if granted.Fail? then (Err(granted.error), s2) else (Ok(found.value), s2)
  }

  /** The lookup-then-create step of `ensure_workspace_exists`. */
  method FindOrCreateWorkspace(workspaceName: string, capacityId: Option<string>, svc: FabricService)
    returns (r: Result<string, Error>)
    modifies svc
    ensures (r, svc.State()) == FindOrCreateSpec(old(svc.State()), workspaceName, capacityId)
  {
    var found := CheckWorkspaceExists(workspaceName, svc);
    if found.Err? {
      return Err(found.error);
    }
    if Truthy(found.value) {
      return Ok(found.value.value);
    }
    r := CreateWorkspace(workspaceName, capacityId, svc);
  }

  /** `ensure_workspace_exists`. */
  method EnsureWorkspaceExists(workspaceName: string, capacityId: Option<string>, servicePrincipalObjectId: Option<string>,
                               entraAdminGroupId: Option<string>, svc: FabricService) returns (r: Result<string, Error>)
    modifies svc
    ensures (r, svc.State())
      == EnsureSpec(old(svc.State()), workspaceName, capacityId, servicePrincipalObjectId, entraAdminGroupId)
  {
    r := FindOrCreateWorkspace(workspaceName, capacityId, svc);
    if r.Err? {
      return;
    }
    var workspaceId := r.value;
    var admin := AddWorkspaceAdmin(workspaceId, servicePrincipalObjectId, svc);
    if admin.Fail? {
      return Err(admin.error);
    }
    var group := AddEntraIdGroupAdmin(workspaceId, entraAdminGroupId, svc);
    if group.Fail? {
      return Err(group.error);
    }
  }

  // ----- idempotence -----

  /** A workspace is ready when the lookup succeeds with a usable id and every
      configured principal can be checked and already holds Admin on it. */
  ghost predicate Ready(s: ServiceState, workspaceName: string, servicePrincipalObjectId: Option<string>,
                        entraAdminGroupId: Option<string>)
  {
    var found := FirstMatch(s.workspaces, workspaceName);
    && s.faults.listWorkspaces.None?
    && Truthy(found)
    && (Truthy(servicePrincipalObjectId) ==>
          s.faults.listRoleAssignments.None? && RoleAssignment(found.value, servicePrincipalObjectId.value, ADMIN) in s.assignments)
    && (Truthy(entraAdminGroupId) ==>
          s.faults.listRoleAssignments.None? && RoleAssignment(found.value, entraAdminGroupId.value, ADMIN) in s.assignments)
  }

  /** Against a ready workspace, ensuring it returns the existing id and changes
      nothing: no create and no add, so zero mutating calls. */
  lemma EnsureOnReadyWorkspaceIsNoOp(s: ServiceState, workspaceName: string, capacityId: Option<string>,
                                     servicePrincipalObjectId: Option<string>, entraAdminGroupId: Option<string>)
    requires Ready(s, workspaceName, servicePrincipalObjectId, entraAdminGroupId)
    ensures EnsureSpec(s, workspaceName, capacityId, servicePrincipalObjectId, entraAdminGroupId)
      == (Ok(FirstMatch(s.workspaces, workspaceName).value), s)
  {
    var id := FirstMatch(s.workspaces, workspaceName).value;
    assert FindOrCreateSpec(s, workspaceName, capacityId) == (Ok(id), s);
    assert AssignRoleSpec(s, id, servicePrincipalObjectId, ServicePrincipal, ADMIN, "Service Principal") == (Pass, s);
    assert GrantAdminsSpec(s, id, servicePrincipalObjectId, entraAdminGroupId) == (Pass, s);
  }

  /** The first workspace named `name` after appending `w` to a listing that has none. */
  lemma {:induction false} FirstMatchAppend(workspaces: seq<Workspace>, w: Workspace, name: string)
    requires FirstMatch(workspaces, name).None?
    ensures FirstMatch(workspaces + [w], name) == if w.displayName == name then Some(w.id) else None
    decreases |workspaces|
  {
    if |workspaces| > 0 {
      FirstMatchAppend(workspaces[1..], w, name);
      assert (workspaces + [w])[1..] == workspaces[1..] + [w];
    }
  }

  /** Every workspace the service lists has a non-empty id. */
  ghost predicate IdsNonEmpty(s: ServiceState)
  {
    forall i :: 0 <= i < |s.workspaces| ==> s.workspaces[i].id != ""
  }

  /** A successful run leaves the workspace ready, so a second run with the same
      arguments returns the same id and makes no mutating call at all. */
  lemma EnsureIsIdempotent(s: ServiceState, workspaceName: string, capacityId: Option<string>,
                           servicePrincipalObjectId: Option<string>, entraAdminGroupId: Option<string>)
    requires IdsNonEmpty(s)
    requires EnsureSpec(s, workspaceName, capacityId, servicePrincipalObjectId, entraAdminGroupId).0.Ok?
    ensures var (r, s1) := EnsureSpec(s, workspaceName, capacityId, servicePrincipalObjectId, entraAdminGroupId);
      && Ready(s1, workspaceName, servicePrincipalObjectId, entraAdminGroupId)
      && EnsureSpec(s1, workspaceName, capacityId, servicePrincipalObjectId, entraAdminGroupId) == (r, s1)
  {
    var (r, s1) := EnsureSpec(s, workspaceName, capacityId, servicePrincipalObjectId, entraAdminGroupId);
    var lookup := LookupSpec(s, workspaceName);
    if Truthy(lookup.value) {
      assert s1.workspaces == s.workspaces;
    } else {
      assert lookup.value.None?;
      var (created, sc) := CreateSpec(s, workspaceName, capacityId);
      FirstMatchAppend(s.workspaces, Workspace(workspaceName, s.issuedId), workspaceName);
      assert s1.workspaces == sc.workspaces;
    }
    assert FirstMatch(s1.workspaces, workspaceName) == Some(r.value);
    var id := r.value;
    var (admin, s2) := AssignRoleSpec(s, id, servicePrincipalObjectId, ServicePrincipal, ADMIN, "Service Principal");
    EnsureOnReadyWorkspaceIsNoOp(s1, workspaceName, capacityId, servicePrincipalObjectId, entraAdminGroupId);
  }

  /** With every endpoint answering normally, ensuring succeeds whenever the lookup
      finds a usable id or a capacity id lets the create call issue one: it returns
      the id found, or else the newly issued id. */
  lemma EnsureSucceedsOnWorkingService(s: ServiceState, workspaceName: string, capacityId: Option<string>,
                                       servicePrincipalObjectId: Option<string>, entraAdminGroupId: Option<string>)
    requires s.faults == Faults(None, None, None, None)
    requires Truthy(FirstMatch(s.workspaces, workspaceName)) || (Truthy(capacityId) && s.issuedId != "")
    ensures EnsureSpec(s, workspaceName, capacityId, servicePrincipalObjectId, entraAdminGroupId).0
      == Ok(if Truthy(FirstMatch(s.workspaces, workspaceName)) then FirstMatch(s.workspaces, workspaceName).value
            else s.issuedId)
  {
  }

  /** A second `_assign_workspace_role` with the same arguments after a successful
      one changes nothing and makes no mutating call. */
  lemma AssignRoleIsIdempotent(s: ServiceState, workspaceId: string, principalId: Option<string>,
                               principalType: PrincipalType, role: string, description: string)
    requires AssignRoleSpec(s, workspaceId, principalId, principalType, role, description).0.Pass?
    ensures var s1 := AssignRoleSpec(s, workspaceId, principalId, principalType, role, description).1;
      AssignRoleSpec(s1, workspaceId, principalId, principalType, role, description) == (Pass, s1)
  {
  }
}
