# Resource-scoped RBAC of starship-iac, modelled in Dafny

This project models the authorization core of starship-iac: a permission service that
stores who may do what on projects, environments, configurations and secrets as rows of a
casbin enforcer, the access decision that casbin makes from those rows under the model set
up in `initPermissionSystem`, and the small `ReadLog` helper of the command-line package.

Modules:

- `Rules` (rules.dfy): a casbin row `Rule(v0, v1, v2)` and the store operations the
  enforcer applies: field filter, insert, remove, and the `v2 ∈ actions` load filter.
- `Roles` (roles.dfy): the role relation `g` as the reflexive-transitive closure of the
  first two fields of grouping rows. It is computed as a least fixed point that terminates
  on cycles and is proved equal to reachability along paths.
- `Matcher` (matcher.dfy): the matcher `g(r.sub, p.sub) && (r.obj == p.obj || p.obj == "*")
  && (r.act == p.act || p.act == "*")` with the "some row allows" effect, and its properties.
- `Casbin` (casbin.dfy): class `Enforcer` with in-memory policy and grouping stores, a
  backing copy of each, and the auto-save flag. It holds the add/remove, filtered-read,
  `LoadPolicy` and `LoadFilteredPolicy` operations the service calls.
- `PermissionService` (permission_service.dfy): the service functions, each a method or
  function taking the enforcer.
- `Shell` (shell.dfy): `ReadLog` over the file's lines.

Casbin's code is not part of this model. What the `Enforcer` methods promise is this
model's stated reading of casbin's behaviour, written as definitions (see the comment at
the top of casbin.dfy). These facts are not verified against casbin.

Where the model follows the code rather than the system's design description:

- Group permissions on projects, configurations and secrets are three-field grouping rows
  `(groupId, resourceId, permission)`, not two-field edges.
- Environment permissions for groups are policy rows, the same as for users
  (server/services/permission_service.go:81-91).
- No operation validates its identifiers. An empty user id given to
  `GetProjectIdsForUser` matches every row, because casbin's field filter treats an empty
  value as "any".
- Nothing serialises the filtered-load/reload window of `GetProjectIdsForUser`.

`server/server.go` adds no role definition, and its matcher text starts with `"m = "`
(server/server.go:124-128). The model uses the matcher as the test's model text declares
it, with `g = _, _` (server/services/permission_service_test.go:46-61).

Observations proved about the model:

- `GetProjectIdsForUser` computes its answer from the BACKING store, then replaces the
  in-memory stores with the backing store. With auto-save on and the stores in step, the
  call changes nothing. With auto-save off, unsaved in-memory changes are lost.
- Under this matcher, a group's project, configuration or secret permission (a grouping
  row `groupId -> resourceId`) changes no decision by itself, PROVIDED that no policy row
  has the resource id as its subject and no grouping row has the resource id as its first
  field (`Matcher.GroupGrantAloneChangesNothing`). The grant only makes
  `g(groupId, resourceId)` hold, and under those two conditions nothing leads on from the
  resource id. The service does not enforce them: `CreateRole` writes any role name as a
  subject and the user permissions write any id as one, so an id shared between a resource
  and a subject or role lets the grant change decisions.

## Model

| member | source | states |
|---|---|---|
| Rules.Filtered | server/services/permission_service.go:38 | GetFilteredPolicy(i, v) keeps exactly the rows whose field i equals v, in store order; an empty v keeps every row |
| Rules.WithActionIn | server/services/permission_service.go:36-37 | the `v2 $in [...]` load filter keeps exactly the rows whose third field is one of the listed actions |
| Rules.Without | server/services/permission_service.go:32 | removing a row leaves exactly the other rows, and never more rows than before |
| Rules.WithoutAbsent | server/services/permission_service.go:32 | removing a row that is not stored changes nothing |
| Rules.WithoutInserted | server/services/permission_service.go:27-33 | Delete undoes Add: removing a row just added restores the store it was added to |
| Rules.InsertedIdempotent | server/services/permission_service.go:11-13 | adding a row twice equals adding it once; afterwards the row is stored and no row was lost |
| Roles.Closure | server/server.go:128 | the closure computed for g contains its start names and is closed under grouping rows; it terminates on cyclic groupings |
| Roles.ClosureLeast | server/server.go:128 | the computed closure lies inside every closed set containing the start, so it is the least one |
| Roles.ClosureSound | server/server.go:128 | every name the closure adds can be reached along grouping rows |
| Roles.PathStaysInClosedSet | server/server.go:128 | a set closed under grouping rows contains the end of every path that starts in it |
| Roles.LinkedIffReachable | server/server.go:128 | g(a, b) holds iff a path of grouping rows (first field to second field) leads from a to b |
| Roles.LinkedByRow | server/services/permission_service.go:15-17 | g is reflexive and holds for every grouping row, so AddRoleForUser gives g(user, role) |
| Roles.LinkedTransitive | server/server.go:128 | g is transitive |
| Roles.LinkedMonotonic | server/server.go:128 | adding grouping rows never breaks g |
| Roles.CycleClosure | server/services/permission_service_test.go:53-54 | with rows a->b and b->a, the names reached from a are exactly {a, b} |
| Matcher.Decide | server/server.go:127-128 | the first-match scan allows iff some policy row matches the request |
| Matcher.AllowedIffReachable | server/server.go:127-128 | allowed iff some policy row (ps, po, pa) has ps reachable from the requester, po the requested object or "*", and pa the requested action or "*" |
| Matcher.DecideMonotonic | server/server.go:127-128 | more policy or grouping rows never deny a request that fewer rows allow |
| Matcher.DecideIgnoresOrder | server/server.go:127 | stores holding the same rows in any order decide every request alike |
| Matcher.AddingNeverDenies | server/server.go:127-128 | adding a policy or grouping row never turns an allowed request into a denied one |
| Matcher.RemovingNeverAllows | server/server.go:127-128 | removing a policy or grouping row never turns a denied request into an allowed one |
| Matcher.WildcardRowAllowsAll | server/server.go:128 | a user holding a role with row (role, "*", "*") is allowed every object and action |
| Matcher.RequestWildcardIsLiteral | server/server.go:128 | a request for object (or action) "*" is allowed only by rows whose object (or action) field is "*" |
| Matcher.InheritedThroughChain | server/server.go:128 | user -> group -> role grouping rows plus a policy row for the role allow the user |
| Matcher.GroupGrantAloneChangesNothing | server/services/permission_service.go:57-59 | a group permission row changes no decision while no policy or grouping row has the resource as its subject |
| Casbin.Enforcer.constructor | server/server.go:130-134 | a new enforcer holds the full backing store, in step with it, with auto-save on |
| Casbin.Enforcer.EnableAutoSave | server/server.go:134 | sets the auto-save flag |
| Casbin.Enforcer.AddPolicy | server/services/permission_service.go:12 | returns false and changes nothing when the row is stored; otherwise appends it, and also to the backing store under auto-save, keeping the stores in step |
| Casbin.Enforcer.RemovePolicy | server/services/permission_service.go:32 | returns false and changes nothing when the row is absent; otherwise removes it, and also from the backing store under auto-save, keeping the stores in step |
| Casbin.Enforcer.AddGroupingPolicy | server/services/permission_service.go:58 | the same as AddPolicy, on the grouping store |
| Casbin.Enforcer.RemoveGroupingPolicy | server/services/permission_service.go:62 | the same as RemovePolicy, on the grouping store |
| Casbin.Enforcer.AddRoleForUser | server/services/permission_service.go:16 | adds the grouping row (user, role) when absent; afterwards g(user, role) holds |
| Casbin.Enforcer.DeleteRoleForUser | server/services/permission_service.go:20 | removes the grouping row (user, role), returning whether it was there |
| Casbin.Enforcer.GetRolesForUser | server/services/permission_service.go:24 | the names a grouping row leads to directly from the user; each is reachable by g |
| Casbin.Enforcer.GetFilteredPolicy | server/services/permission_service.go:38 | exactly the policy rows that pass the field filter; an empty value returns the whole store |
| Casbin.Enforcer.GetFilteredGroupingPolicy | server/services/permission_service.go:66 | exactly the grouping rows that pass the field filter; an empty value returns the whole store |
| Casbin.Enforcer.LoadPolicy | server/services/permission_service.go:39 | the in-memory stores become the backing store |
| Casbin.Enforcer.LoadFilteredPolicy | server/services/permission_service.go:37 | the in-memory stores become the backing rows whose action is one of the filter's values |
| Casbin.Enforcer.Enforce | server/server.go:124-128 | allowed iff some policy row's subject is reachable from the requester by grouping rows and its object and action match or are "*" |
| PermissionService.CreateRole | server/services/permission_service.go:11-13 | adds the policy row (RoleName, Id, Permission), returning false when it is already stored |
| PermissionService.AddRoleForUser | server/services/permission_service.go:15-17 | adds the grouping row (UserId, RoleName); re-adding returns false and leaves both stores unchanged |
| PermissionService.DeleteRoleForUser | server/services/permission_service.go:19-21 | removes the grouping row (UserId, RoleName), returning false when it was absent |
| PermissionService.GetRoleForUser | server/services/permission_service.go:23-25 | the user's direct roles, one per grouping row leading from the user |
| PermissionService.AddProjectPermissionForUser | server/services/permission_service.go:27-29 | writes the policy row (Id, ProjectId, Permission) and nothing else |
| PermissionService.DeleteProjectPermissionForUser | server/services/permission_service.go:31-33 | removes that same policy row and nothing else |
| PermissionService.GetProjectIdsForUser | server/services/permission_service.go:35-45 | returns the objects of the backing store's ReadOnly/Config rows for the user; afterwards the in-memory stores equal the full backing store again |
| PermissionService.ListedObjects | server/services/permission_service.go:40-43 | the set built from the filtered rows is the user's project list |
| PermissionService.GetUserIdsForProject | server/services/permission_service.go:47-55 | returns the subjects of the policy rows on the project, whatever their action; grouping rows are not read |
| PermissionService.AddProjectPermissionForGroup | server/services/permission_service.go:57-59 | writes the grouping row (Id, ProjectId, Permission) and nothing else |
| PermissionService.DeleteProjectPermissionForGroup | server/services/permission_service.go:61-63 | removes that same grouping row and nothing else |
| PermissionService.GetAllProjectPermissionsForGroup | server/services/permission_service.go:65-67 | the grouping rows whose first field is the group |
| PermissionService.AddEnvironmentPermissionForUser | server/services/permission_service.go:69-71 | writes the policy row (Id, EnvironmentId, Permission) and nothing else |
| PermissionService.DeleteEnvironmentPermissionForUser | server/services/permission_service.go:73-75 | removes that same policy row and nothing else |
| PermissionService.GetAllEnvironmentPermissionsForUser | server/services/permission_service.go:77-79 | the policy rows whose first field is the user |
| PermissionService.AddEnvironmentPermissionForGroup | server/services/permission_service.go:81-83 | writes a policy row (Id, EnvironmentId, Permission), the same row as the user variant |
| PermissionService.DeleteEnvironmentPermissionForGroup | server/services/permission_service.go:85-87 | removes that policy row, the same as the user variant |
| PermissionService.GetAllEnvironmentPermissionsForGroup | server/services/permission_service.go:89-91 | the policy rows (not grouping rows) whose first field is the group |
| PermissionService.AddConfigurationPermissionForUser | server/services/permission_service.go:93-95 | writes the policy row (Id, ConfigurationId, Permission) and nothing else |
| PermissionService.DeleteConfigurationPermissionForUser | server/services/permission_service.go:97-99 | removes that same policy row and nothing else |
| PermissionService.GetAllConfigurationPermissionsForUser | server/services/permission_service.go:101-103 | the policy rows whose first field is the user |
| PermissionService.AddConfigurationPermissionForGroup | server/services/permission_service.go:105-107 | writes the grouping row (Id, ConfigurationId, Permission) and nothing else |
| PermissionService.DeleteConfigurationPermissionForGroup | server/services/permission_service.go:109-111 | removes that same grouping row and nothing else |
| PermissionService.GetAllConfigurationPermissionsForGroup | server/services/permission_service.go:113-115 | the grouping rows whose first field is the group |
| PermissionService.AddSecretPermissionForUser | server/services/permission_service.go:117-119 | writes the policy row (Id, SecretId, Permission) and nothing else |
| PermissionService.DeleteSecretPermissionForUser | server/services/permission_service.go:121-123 | removes that same policy row and nothing else |
| PermissionService.GetAllSecretPermissionsForUser | server/services/permission_service.go:125-127 | the policy rows whose first field is the user |
| PermissionService.AddSecretPermissionForGroup | server/services/permission_service.go:129-131 | writes the grouping row (Id, SecretId, Permission) and nothing else |
| PermissionService.DeleteSecretPermissionForGroup | server/services/permission_service.go:133-135 | removes that same grouping row and nothing else |
| PermissionService.GetAllSecretPermissionsForGroup | server/services/permission_service.go:137-139 | the grouping rows whose first field is the group |
| PermissionService.ProjectIdsForUserIff | server/services/permission_service.go:36-44 | a project is listed for a user iff one of the user's policy rows on it has action ReadOnly or Config |
| PermissionService.OtherActionsNotListed | server/services/permission_service.go:36 | a row whose action is neither ReadOnly nor Config, "*" included, does not change a user's project list |
| PermissionService.ProjectListedOnce | server/services/permission_service_test.go:138-151 | a user holding both ReadOnly and Config on one project gets that project once |
| PermissionService.UserIdsForProjectIff | server/services/permission_service.go:48-54 | a subject is listed for a project iff it has a policy row on the project, whatever the action |
| PermissionService.GrantShowsInLookups | server/services/permission_service.go:27-54 | after granting ReadOnly or Config the project is in the user's list and the user in the project's; after the delete the row is gone from the user's rows |
| PermissionService.AdminRoleScenario | server/services/permission_service_test.go:71-128 | with role ("admin", "*", "*") the user holding it may do anything; after DeleteRoleForUser, nothing |
| Shell.KeptLinesSnoc | cmd/shell.go:35-40 | scanning one more line keeps it exactly when its number reaches lineNumber |
| Shell.KeptLinesIsSuffix | cmd/shell.go:36 | the kept lines are the file's suffix from line max(lineNumber, 1), empty when lineNumber is past the end |
| Shell.ReadLog | cmd/shell.go:30-43 | returns, in order, exactly the lines whose 1-based number is at least lineNumber (all of them when lineNumber <= 1, none when it exceeds the count), and the total line count |

## Left out

- Persistence errors: the create, add, delete and role operations return casbin's `error` beside their boolean, and `GetRoleForUser` beside its list. The model assumes every write and load succeeds, so it has no error results. `GetProjectIdsForUser`, `GetUserIdsForProject` and the seven `GetAll*` functions return no error at all.
- PermissionService.GetProjectIdsForUser: discards the errors of `LoadFilteredPolicy` (server/services/permission_service.go:37) and `LoadPolicy` (:39). A failed reload is never reported and could leave the in-memory stores narrowed to the filtered rows. The ensures that the in-memory stores equal the backing store afterwards holds only under the model's assumption that every load succeeds.
- Casbin readings not adopted: the model does not follow three behaviours casbin's own code may have. (a) With auto-save on, the adapter's delete may run before the in-memory check, so removing a row absent from memory could still delete it from the backing store. (b) Role links may be kept incrementally without reference counts, so removing one of two grouping rows sharing their first two fields could break `g` until the next `LoadPolicy`. (c) With an empty policy store, the matcher may be evaluated once with empty policy fields, so the request ("", "", "") could be allowed. Each method here follows the reading stated in casbin.dfy instead.
- Casbin's own behaviour is stated as definitions in casbin.dfy, not derived from casbin. This covers duplicate handling, append order, the auto-save writes and the two loads. A backing-store removal is modelled as removing every copy of the row.
- The MongoDB adapter's document format and the BSON `$in` filter: the filter is the predicate "third field is ReadOnly or Config". It applies to grouping rows as well, since both kinds share one collection.
- Two-field rows are identified with three-field rows whose last field is empty. The adapter reads them back that way, so `AddRoleForUser(u, r)` and a grouping row `(u, r, "")` are the same row here.
- Casbin.Enforcer.GetRolesForUser: returns a set; the order of casbin's returned list is not modelled.
- Casbin's role manager stops at a maximum hierarchy depth (10 by default). The model's g follows grouping chains of any length.
- Concurrency: nothing in the code serialises the filtered-load/reload window of `GetProjectIdsForUser`, and the model is sequential.
- The values of `utils.ReadOnly` and `utils.Config` are defined outside the modelled files. The model uses two distinct placeholder names that differ from "*".
- The permission structs (`models.ProjectPermission` and the others) are defined outside the modelled files. They are one datatype `ResourcePermission(id, resourceId, permission)`, with fields read from their use in the service.
- `Exec` in cmd/shell.go spawns a process; it is not modelled.
- `ReadLog`'s file access is left out: the ignored `os.Open` error, closing the file, and the scanner's line-length limit. The file is given as its sequence of lines.
- Shell.ReadLog: uses unbounded integers, so Go `int` overflow of the line counter is not modelled.
- `NewServer`, `ControllersInitialize`, `Start` and `waitForDrain` in server/server.go are wiring, routing, goroutines, signals and timeouts. Only the RBAC model definition is modelled.
- server/services/users_service.go, server/core/db/db.go and server/controller/admin_controller.go are MongoDB driver calls and HTTP formatting. They are not part of this model.
- The test file calls `GetAllProjectPermissionsForUser` and `GetUsersByProjectId`. The service does not define them, so they are not modelled.
