/**
  The permission service: resource-scoped permissions for users and groups on projects,
  environments, configurations and secrets, written into a casbin enforcer.

  Which row each operation writes:
  - user permissions, and environment permissions for groups too, are policy rows
    (id, resourceId, permission);
  - group permissions on projects, configurations and secrets are grouping rows
    (id, resourceId, permission);
  - a role is a policy row (roleName, id, permission), and giving a user a role is the
    two-field grouping row (userId, roleName).
 */
module PermissionService {
  import opened Rules
  import Roles
  import opened Matcher
  import opened Casbin

  /** The permission levels named `utils.ReadOnly` and `utils.Config`; only their distinctness matters here. */
  const ReadOnly: string := "read_only"
  const Config: string := "config"

  /** The permission levels that make a project show up in a user's project list. */
  const ProjectListActions: set<string> := {ReadOnly, Config}

  datatype Role = Role(roleName: string, id: string, permission: string)

  datatype RoleForUser = RoleForUser(userId: string, roleName: string)

  /**
    A permission of subject `id` (a user or a group) on one resource; it stands for each of
    ProjectPermission, EnvironmentPermission, ConfigurationPermission and SecretPermission,
    whose resource field is ProjectId, EnvironmentId, ConfigurationId or SecretId.
   */
  datatype ResourcePermission = ResourcePermission(id: string, resourceId: string, permission: string)

  function PermissionRule(p: ResourcePermission): Rule
  {
    Rule(p.id, p.resourceId, p.permission)
  }

  // ----- Roles -----

  method CreateRole(role: Role, e: Enforcer) returns (ok: bool)
    modifies e`policy, e`savedPolicy
    ensures ok <==> Rule(role.roleName, role.id, role.permission) !in old(e.policy)
    ensures e.policy == Inserted(old(e.policy), Rule(role.roleName, role.id, role.permission))
    ensures e.savedPolicy == if ok && e.autoSave then old(e.savedPolicy) + [Rule(role.roleName, role.id, role.permission)] else old(e.savedPolicy)
  {
    ok := e.AddPolicy(Rule(role.roleName, role.id, role.permission));
  }

  method AddRoleForUser(roleForUser: RoleForUser, e: Enforcer) returns (ok: bool)
    modifies e`grouping, e`savedGrouping
    ensures ok <==> Rule(roleForUser.userId, roleForUser.roleName, "") !in old(e.grouping)
    ensures e.grouping == Inserted(old(e.grouping), Rule(roleForUser.userId, roleForUser.roleName, ""))
    ensures e.savedGrouping == if ok && e.autoSave then old(e.savedGrouping) + [Rule(roleForUser.userId, roleForUser.roleName, "")] else old(e.savedGrouping)
    ensures Roles.Linked(e.grouping, roleForUser.userId, roleForUser.roleName)
  {
    ok := e.AddRoleForUser(roleForUser.userId, roleForUser.roleName);
  }

  method DeleteRoleForUser(roleForUser: RoleForUser, e: Enforcer) returns (ok: bool)
    modifies e`grouping, e`savedGrouping
    ensures ok <==> Rule(roleForUser.userId, roleForUser.roleName, "") in old(e.grouping)
    ensures e.grouping == Without(old(e.grouping), Rule(roleForUser.userId, roleForUser.roleName, ""))
    ensures e.savedGrouping == if ok && e.autoSave then Without(old(e.savedGrouping), Rule(roleForUser.userId, roleForUser.roleName, "")) else old(e.savedGrouping)
  {
    ok := e.DeleteRoleForUser(roleForUser.userId, roleForUser.roleName);
  }

  function GetRoleForUser(userId: string, e: Enforcer): (roles: set<string>)
    reads e
    ensures forall role :: role in roles <==> Roles.Edge(e.grouping, userId, role)
  {
    e.GetRolesForUser(userId)
  }

  // ----- Shared shapes of the Add/Delete operations -----

  /** A permission written as a policy row. */
  method AddPolicyPermission(permission: ResourcePermission, e: Enforcer) returns (ok: bool)
    modifies e`policy, e`savedPolicy
    ensures ok <==> PermissionRule(permission) !in old(e.policy)
    ensures e.policy == Inserted(old(e.policy), PermissionRule(permission))
    ensures e.savedPolicy == if ok && e.autoSave then old(e.savedPolicy) + [PermissionRule(permission)] else old(e.savedPolicy)
  {
    ok := e.AddPolicy(PermissionRule(permission));
  }

  method DeletePolicyPermission(permission: ResourcePermission, e: Enforcer) returns (ok: bool)
    modifies e`policy, e`savedPolicy
    ensures ok <==> PermissionRule(permission) in old(e.policy)
    ensures e.policy == Without(old(e.policy), PermissionRule(permission))
    ensures e.savedPolicy == if ok && e.autoSave then Without(old(e.savedPolicy), PermissionRule(permission)) else old(e.savedPolicy)
  {
    ok := e.RemovePolicy(PermissionRule(permission));
  }

  /** A permission written as a grouping row. */
  method AddGroupingPermission(permission: ResourcePermission, e: Enforcer) returns (ok: bool)
    modifies e`grouping, e`savedGrouping
    ensures ok <==> PermissionRule(permission) !in old(e.grouping)
    ensures e.grouping == Inserted(old(e.grouping), PermissionRule(permission))
    ensures e.savedGrouping == if ok && e.autoSave then old(e.savedGrouping) + [PermissionRule(permission)] else old(e.savedGrouping)
  {
    ok := e.AddGroupingPolicy(PermissionRule(permission));
  }

  method DeleteGroupingPermission(permission: ResourcePermission, e: Enforcer) returns (ok: bool)
    modifies e`grouping, e`savedGrouping
    ensures ok <==> PermissionRule(permission) in old(e.grouping)
    ensures e.grouping == Without(old(e.grouping), PermissionRule(permission))
    ensures e.savedGrouping == if ok && e.autoSave then Without(old(e.savedGrouping), PermissionRule(permission)) else old(e.savedGrouping)
  {
    ok := e.RemoveGroupingPolicy(PermissionRule(permission));
  }

  // ----- Projects -----

  method AddProjectPermissionForUser(permission: ResourcePermission, e: Enforcer) returns (ok: bool)
    modifies e`policy, e`savedPolicy
    ensures ok <==> PermissionRule(permission) !in old(e.policy)
    ensures e.policy == Inserted(old(e.policy), PermissionRule(permission))
    ensures e.savedPolicy == if ok && e.autoSave then old(e.savedPolicy) + [PermissionRule(permission)] else old(e.savedPolicy)
  {
    ok := AddPolicyPermission(permission, e);
  }

  method DeleteProjectPermissionForUser(permission: ResourcePermission, e: Enforcer) returns (ok: bool)
    modifies e`policy, e`savedPolicy
    ensures ok <==> PermissionRule(permission) in old(e.policy)
    ensures e.policy == Without(old(e.policy), PermissionRule(permission))
    ensures e.savedPolicy == if ok && e.autoSave then Without(old(e.savedPolicy), PermissionRule(permission)) else old(e.savedPolicy)
  {
    ok := DeletePolicyPermission(permission, e);
  }

  /** The projects a user holds ReadOnly or Config on, read from `rows`. */
  function ProjectIdsForUser(rows: seq<Rule>, userId: string): set<string>
  {
    set r | r in rows && r.v2 in ProjectListActions && FieldMatches(r, 0, userId) :: r.v1
  }

  /**
    Narrows the stores to the rows with a ReadOnly or Config action, reads the user's rows,
    reloads the full stores and collects the object fields. The result comes from the
    backing store, and afterwards the in-memory stores are the full backing store again.
   */
  method GetProjectIdsForUser(userId: string, e: Enforcer) returns (projectIds: set<string>)
    modifies e`policy, e`grouping
    ensures projectIds == ProjectIdsForUser(e.savedPolicy, userId)
    ensures e.policy == e.savedPolicy && e.grouping == e.savedGrouping
    ensures old(e.Saved()) ==> e.policy == old(e.policy) && e.grouping == old(e.grouping)
    ensures old(e.Saved()) ==> projectIds == ProjectIdsForUser(old(e.policy), userId)
  {
    e.LoadFilteredPolicy(ProjectListActions);
    var projectPermissions := e.GetFilteredPolicy(0, userId);
    e.LoadPolicy();
    projectIds := {};
    for i := 0 to |projectPermissions|
      invariant projectIds == set j | 0 <= j < i :: projectPermissions[j].v1
    {
      projectIds := projectIds + {projectPermissions[i].v1};
    }
    ListedObjects(projectPermissions, e.savedPolicy, userId);
  }

  lemma ListedObjects(listed: seq<Rule>, rows: seq<Rule>, userId: string)
    requires forall r :: r in listed <==> r in rows && r.v2 in ProjectListActions && FieldMatches(r, 0, userId)
    ensures (set j | 0 <= j < |listed| :: listed[j].v1) == ProjectIdsForUser(rows, userId)
  {
    forall p | p in ProjectIdsForUser(rows, userId)
      ensures p in (set j | 0 <= j < |listed| :: listed[j].v1)
    {
      var r :| r in rows && r.v2 in ProjectListActions && FieldMatches(r, 0, userId) && r.v1 == p;
      var j :| 0 <= j < |listed| && listed[j] == r;
    }
  }

  /** Every subject (user, group or role) with a policy row on the project, read from `rows`. */
  function UserIdsForProject(rows: seq<Rule>, projectId: string): set<string>
  {
    set r | r in rows && FieldMatches(r, 1, projectId) :: r.v0
  }

  /** Reads policy rows only: a group given a project permission as a grouping row is not listed. */
  method GetUserIdsForProject(projectId: string, e: Enforcer) returns (userIds: set<string>)
    ensures userIds == UserIdsForProject(e.policy, projectId)
  {
    var projectPermissions := e.GetFilteredPolicy(1, projectId);
    userIds := {};
    for i := 0 to |projectPermissions|
      invariant userIds == set j | 0 <= j < i :: projectPermissions[j].v0
    {
      userIds := userIds + {projectPermissions[i].v0};
    }
    forall s | s in UserIdsForProject(e.policy, projectId)
      ensures s in userIds
    {
      var r :| r in e.policy && FieldMatches(r, 1, projectId) && r.v0 == s;
      var j :| 0 <= j < |projectPermissions| && projectPermissions[j] == r;
    }
  }

  method AddProjectPermissionForGroup(permission: ResourcePermission, e: Enforcer) returns (ok: bool)
    modifies e`grouping, e`savedGrouping
    ensures ok <==> PermissionRule(permission) !in old(e.grouping)
    ensures e.grouping == Inserted(old(e.grouping), PermissionRule(permission))
    ensures e.savedGrouping == if ok && e.autoSave then old(e.savedGrouping) + [PermissionRule(permission)] else old(e.savedGrouping)
  {
    ok := AddGroupingPermission(permission, e);
  }

  method DeleteProjectPermissionForGroup(permission: ResourcePermission, e: Enforcer) returns (ok: bool)
    modifies e`grouping, e`savedGrouping
    ensures ok <==> PermissionRule(permission) in old(e.grouping)
    ensures e.grouping == Without(old(e.grouping), PermissionRule(permission))
    ensures e.savedGrouping == if ok && e.autoSave then Without(old(e.savedGrouping), PermissionRule(permission)) else old(e.savedGrouping)
  {
    ok := DeleteGroupingPermission(permission, e);
  }

  function GetAllProjectPermissionsForGroup(groupId: string, e: Enforcer): (rows: seq<Rule>)
    reads e
    ensures forall r :: r in rows <==> r in e.grouping && FieldMatches(r, 0, groupId)
    ensures rows == Filtered(e.grouping, 0, groupId)
  {
    e.GetFilteredGroupingPolicy(0, groupId)
  }

  // ----- Environments: both the user and the group variants write policy rows -----

  method AddEnvironmentPermissionForUser(permission: ResourcePermission, e: Enforcer) returns (ok: bool)
    modifies e`policy, e`savedPolicy
    ensures ok <==> PermissionRule(permission) !in old(e.policy)
    ensures e.policy == Inserted(old(e.policy), PermissionRule(permission))
    ensures e.savedPolicy == if ok && e.autoSave then old(e.savedPolicy) + [PermissionRule(permission)] else old(e.savedPolicy)
  {
    ok := AddPolicyPermission(permission, e);
  }

  method DeleteEnvironmentPermissionForUser(permission: ResourcePermission, e: Enforcer) returns (ok: bool)
    modifies e`policy, e`savedPolicy
    ensures ok <==> PermissionRule(permission) in old(e.policy)
    ensures e.policy == Without(old(e.policy), PermissionRule(permission))
    ensures e.savedPolicy == if ok && e.autoSave then Without(old(e.savedPolicy), PermissionRule(permission)) else old(e.savedPolicy)
  {
    ok := DeletePolicyPermission(permission, e);
  }

  function GetAllEnvironmentPermissionsForUser(userId: string, e: Enforcer): (rows: seq<Rule>)
    reads e
    ensures forall r :: r in rows <==> r in e.policy && FieldMatches(r, 0, userId)
    ensures rows == Filtered(e.policy, 0, userId)
  {
    e.GetFilteredPolicy(0, userId)
  }

  method AddEnvironmentPermissionForGroup(permission: ResourcePermission, e: Enforcer) returns (ok: bool)
    modifies e`policy, e`savedPolicy
    ensures ok <==> PermissionRule(permission) !in old(e.policy)
    ensures e.policy == Inserted(old(e.policy), PermissionRule(permission))
    ensures e.savedPolicy == if ok && e.autoSave then old(e.savedPolicy) + [PermissionRule(permission)] else old(e.savedPolicy)
  {
    ok := AddPolicyPermission(permission, e);
  }

  method DeleteEnvironmentPermissionForGroup(permission: ResourcePermission, e: Enforcer) returns (ok: bool)
    modifies e`policy, e`savedPolicy
    ensures ok <==> PermissionRule(permission) in old(e.policy)
    ensures e.policy == Without(old(e.policy), PermissionRule(permission))
    ensures e.savedPolicy == if ok && e.autoSave then Without(old(e.savedPolicy), PermissionRule(permission)) else old(e.savedPolicy)
  {
    ok := DeletePolicyPermission(permission, e);
  }

  function GetAllEnvironmentPermissionsForGroup(groupId: string, e: Enforcer): (rows: seq<Rule>)
    reads e
    ensures forall r :: r in rows <==> r in e.policy && FieldMatches(r, 0, groupId)
    ensures rows == Filtered(e.policy, 0, groupId)
  {
    e.GetFilteredPolicy(0, groupId)
  }

  // ----- Configurations -----

  method AddConfigurationPermissionForUser(permission: ResourcePermission, e: Enforcer) returns (ok: bool)
    modifies e`policy, e`savedPolicy
    ensures ok <==> PermissionRule(permission) !in old(e.policy)
    ensures e.policy == Inserted(old(e.policy), PermissionRule(permission))
    ensures e.savedPolicy == if ok && e.autoSave then old(e.savedPolicy) + [PermissionRule(permission)] else old(e.savedPolicy)
  {
    ok := AddPolicyPermission(permission, e);
  }

  method DeleteConfigurationPermissionForUser(permission: ResourcePermission, e: Enforcer) returns (ok: bool)
    modifies e`policy, e`savedPolicy
    ensures ok <==> PermissionRule(permission) in old(e.policy)
    ensures e.policy == Without(old(e.policy), PermissionRule(permission))
    ensures e.savedPolicy == if ok && e.autoSave then Without(old(e.savedPolicy), PermissionRule(permission)) else old(e.savedPolicy)
  {
    ok := DeletePolicyPermission(permission, e);
  }

  function GetAllConfigurationPermissionsForUser(userId: string, e: Enforcer): (rows: seq<Rule>)
    reads e
    ensures forall r :: r in rows <==> r in e.policy && FieldMatches(r, 0, userId)
    ensures rows == Filtered(e.policy, 0, userId)
  {
    e.GetFilteredPolicy(0, userId)
  }

  method AddConfigurationPermissionForGroup(permission: ResourcePermission, e: Enforcer) returns (ok: bool)
    modifies e`grouping, e`savedGrouping
    ensures ok <==> PermissionRule(permission) !in old(e.grouping)
    ensures e.grouping == Inserted(old(e.grouping), PermissionRule(permission))
    ensures e.savedGrouping == if ok && e.autoSave then old(e.savedGrouping) + [PermissionRule(permission)] else old(e.savedGrouping)
  {
    ok := AddGroupingPermission(permission, e);
  }

  method DeleteConfigurationPermissionForGroup(permission: ResourcePermission, e: Enforcer) returns (ok: bool)
    modifies e`grouping, e`savedGrouping
    ensures ok <==> PermissionRule(permission) in old(e.grouping)
    ensures e.grouping == Without(old(e.grouping), PermissionRule(permission))
    ensures e.savedGrouping == if ok && e.autoSave then Without(old(e.savedGrouping), PermissionRule(permission)) else old(e.savedGrouping)
  {
    ok := DeleteGroupingPermission(permission, e);
  }

  function GetAllConfigurationPermissionsForGroup(groupId: string, e: Enforcer): (rows: seq<Rule>)
    reads e
    ensures forall r :: r in rows <==> r in e.grouping && FieldMatches(r, 0, groupId)
    ensures rows == Filtered(e.grouping, 0, groupId)
  {
    e.GetFilteredGroupingPolicy(0, groupId)
  }

  // ----- Secrets -----

  method AddSecretPermissionForUser(permission: ResourcePermission, e: Enforcer) returns (ok: bool)
    modifies e`policy, e`savedPolicy
    ensures ok <==> PermissionRule(permission) !in old(e.policy)
    ensures e.policy == Inserted(old(e.policy), PermissionRule(permission))
    ensures e.savedPolicy == if ok && e.autoSave then old(e.savedPolicy) + [PermissionRule(permission)] else old(e.savedPolicy)
  {
    ok := AddPolicyPermission(permission, e);
  }

  method DeleteSecretPermissionForUser(permission: ResourcePermission, e: Enforcer) returns (ok: bool)
    modifies e`policy, e`savedPolicy
    ensures ok <==> PermissionRule(permission) in old(e.policy)
    ensures e.policy == Without(old(e.policy), PermissionRule(permission))
    ensures e.savedPolicy == if ok && e.autoSave then Without(old(e.savedPolicy), PermissionRule(permission)) else old(e.savedPolicy)
  {
    ok := DeletePolicyPermission(permission, e);
  }

  function GetAllSecretPermissionsForUser(userId: string, e: Enforcer): (rows: seq<Rule>)
    reads e
    ensures forall r :: r in rows <==> r in e.policy && FieldMatches(r, 0, userId)
    ensures rows == Filtered(e.policy, 0, userId)
  {
    e.GetFilteredPolicy(0, userId)
  }

  method AddSecretPermissionForGroup(permission: ResourcePermission, e: Enforcer) returns (ok: bool)
    modifies e`grouping, e`savedGrouping
    ensures ok <==> PermissionRule(permission) !in old(e.grouping)
    ensures e.grouping == Inserted(old(e.grouping), PermissionRule(permission))
    ensures e.savedGrouping == if ok && e.autoSave then old(e.savedGrouping) + [PermissionRule(permission)] else old(e.savedGrouping)
  {
    ok := AddGroupingPermission(permission, e);
  }

  method DeleteSecretPermissionForGroup(permission: ResourcePermission, e: Enforcer) returns (ok: bool)
    modifies e`grouping, e`savedGrouping
    ensures ok <==> PermissionRule(permission) in old(e.grouping)
    ensures e.grouping == Without(old(e.grouping), PermissionRule(permission))
    ensures e.savedGrouping == if ok && e.autoSave then Without(old(e.savedGrouping), PermissionRule(permission)) else old(e.savedGrouping)
  {
    ok := DeleteGroupingPermission(permission, e);
  }

  function GetAllSecretPermissionsForGroup(groupId: string, e: Enforcer): (rows: seq<Rule>)
    reads e
    ensures forall r :: r in rows <==> r in e.grouping && FieldMatches(r, 0, groupId)
    ensures rows == Filtered(e.grouping, 0, groupId)
  {
    e.GetFilteredGroupingPolicy(0, groupId)
  }

  // ----- Properties of the lookups -----

  /**
    A user's project list holds exactly the objects of the user's policy rows whose action
    is ReadOnly or Config; rows with action "*" or any other action are not listed.
   */
  lemma ProjectIdsForUserIff(rows: seq<Rule>, userId: string, projectId: string)
    requires userId != ""
    ensures projectId in ProjectIdsForUser(rows, userId) <==>
      exists r :: r in rows && r.v0 == userId && r.v1 == projectId && (r.v2 == ReadOnly || r.v2 == Config)
  {
    if exists r :: r in rows && r.v0 == userId && r.v1 == projectId && (r.v2 == ReadOnly || r.v2 == Config) {
      var r :| r in rows && r.v0 == userId && r.v1 == projectId && (r.v2 == ReadOnly || r.v2 == Config);
      assert r.v2 in ProjectListActions;
    }
  }

  /** A row whose action is neither ReadOnly nor Config (a wildcard row, say) does not change the list. */
  lemma OtherActionsNotListed(rows: seq<Rule>, userId: string, r: Rule)
    requires r.v2 != ReadOnly && r.v2 != Config
    ensures ProjectIdsForUser(rows + [r], userId) == ProjectIdsForUser(rows, userId)
  {
    assert r.v2 !in ProjectListActions;
  }

  /** A project the user holds both ReadOnly and Config on is listed once. */
  lemma ProjectListedOnce(userId: string, projectId: string)
    ensures ProjectIdsForUser([Rule(userId, projectId, ReadOnly), Rule(userId, projectId, Config)], userId) == {projectId}
  {
    var rows := [Rule(userId, projectId, ReadOnly), Rule(userId, projectId, Config)];
    assert rows[0] in rows && rows[0].v2 in ProjectListActions;
  }

  /** A project's subject list holds exactly the subjects of its policy rows, whatever their action. */
  lemma UserIdsForProjectIff(rows: seq<Rule>, projectId: string, subject: string)
    requires projectId != ""
    ensures subject in UserIdsForProject(rows, projectId) <==>
      exists r :: r in rows && r.v1 == projectId && r.v0 == subject
  {
    if exists r :: r in rows && r.v1 == projectId && r.v0 == subject {
      var r :| r in rows && r.v1 == projectId && r.v0 == subject;
      assert FieldMatches(r, 1, projectId);
    }
  }

  /**
    After AddProjectPermissionForUser with ReadOnly or Config, the project is in the user's
    project list and the user is in the project's subject list; after the matching Delete
    neither lookup has that row any more, and the row leaves every user filter.
   */
  lemma GrantShowsInLookups(rows: seq<Rule>, permission: ResourcePermission)
    requires permission.permission in ProjectListActions
    ensures permission.resourceId in ProjectIdsForUser(Inserted(rows, PermissionRule(permission)), permission.id)
    ensures permission.id in UserIdsForProject(Inserted(rows, PermissionRule(permission)), permission.resourceId)
    ensures PermissionRule(permission) !in Filtered(Without(rows, PermissionRule(permission)), 0, permission.id)
  {
    var r := PermissionRule(permission);
    InsertedIdempotent(rows, r);
    assert FieldMatches(r, 0, permission.id) && FieldMatches(r, 1, permission.resourceId);
  }

  /**
    The end-to-end admin scenario: with the role ("admin", "*", "*") and the user holding
    it, the user may do anything; once the role is taken away, the user may do nothing.
   */
  method AdminRoleScenario(userId: string, obj: string, act: string) returns (before: bool, after: bool)
    requires userId != "admin"
    ensures before && !after
  {
    var e := new Enforcer([], []);
    var _ := CreateRole(Role("admin", Wildcard, Wildcard), e);
    var _ := AddRoleForUser(RoleForUser(userId, "admin"), e);
    WildcardRowAllowsAll(e.policy, e.grouping, "admin", userId, obj, act);
    before := e.Enforce(userId, obj, act);
    var _ := DeleteRoleForUser(RoleForUser(userId, "admin"), e);
    assert e.grouping == [];
    Roles.ClosureLeast([], {userId}, {userId});
    after := e.Enforce(userId, obj, act);
  }
}
