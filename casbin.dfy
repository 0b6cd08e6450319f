/**
  The part of casbin's Enforcer that the permission service uses, as a class whose fields
  the operations update in place. Casbin's own code is not part of this model, so what
  the methods promise here is this model's explicit reading of casbin's behaviour:

  - `policy` and `grouping` are the in-memory stores; `savedPolicy` and `savedGrouping`
    are the backing store behind the adapter.
  - Adding a row that is already stored returns false and changes nothing; otherwise the
    row is appended. Removing a row that is not stored returns false and changes nothing;
    otherwise the row leaves the store.
  - With auto-save on, every successful add is also written to the backing store (an
    insert) and every successful remove is deleted from it; with auto-save off, the
    backing store is untouched.
  - `LoadPolicy` replaces both in-memory stores with the backing store's contents;
    `LoadFilteredPolicy` replaces them with only the backing rows whose third field
    passes the filter.
  - Persistence errors are not modelled: every write and load succeeds.
  - A remove touches the backing store only when the row was in memory, links of `g` are
    recomputed from the grouping rows present, and an empty policy store allows nothing.
 */
module Casbin {
  import opened Rules
  import Roles
  import opened Matcher

  class Enforcer {
    var policy: seq<Rule>
    var grouping: seq<Rule>
    var savedPolicy: seq<Rule>
    var savedGrouping: seq<Rule>
    var autoSave: bool

    /** The in-memory stores hold exactly what the backing store holds. */
    ghost predicate Saved()
      reads this
    {
      policy == savedPolicy && grouping == savedGrouping
    }

    /** NewEnforcer(model, adapter): loads the full backing store; auto-save starts enabled. */
    constructor (storedPolicy: seq<Rule>, storedGrouping: seq<Rule>)
      ensures savedPolicy == storedPolicy && savedGrouping == storedGrouping
      ensures Saved() && autoSave
    {
      policy, grouping := storedPolicy, storedGrouping;
      savedPolicy, savedGrouping := storedPolicy, storedGrouping;
      autoSave := true;
    }

    method EnableAutoSave(enabled: bool)
      modifies this`autoSave
      ensures autoSave == enabled
    {
      autoSave := enabled;
    }

    method AddPolicy(r: Rule) returns (added: bool)
      modifies this`policy, this`savedPolicy
      ensures added <==> r !in old(policy)
      ensures policy == Inserted(old(policy), r)
      ensures savedPolicy == if added && autoSave then old(savedPolicy) + [r] else old(savedPolicy)
      ensures old(Saved()) && autoSave ==> Saved()
    {
      added := r !in policy;
      if added {
        if autoSave {
          savedPolicy := savedPolicy + [r];
        }
        policy := policy + [r];
      }
    }

    method RemovePolicy(r: Rule) returns (removed: bool)
      modifies this`policy, this`savedPolicy
      ensures removed <==> r in old(policy)
      ensures r !in policy
      ensures policy == Without(old(policy), r)
      ensures savedPolicy == if removed && autoSave then Without(old(savedPolicy), r) else old(savedPolicy)
      ensures old(Saved()) && autoSave ==> Saved()
    {
      removed := r in policy;
      if removed {
        if autoSave {
          savedPolicy := Without(savedPolicy, r);
        }
        policy := Without(policy, r);
      } else {
        WithoutAbsent(policy, r);
      }
    }

    method AddGroupingPolicy(r: Rule) returns (added: bool)
      modifies this`grouping, this`savedGrouping
      ensures added <==> r !in old(grouping)
      ensures grouping == Inserted(old(grouping), r)
      ensures savedGrouping == if added && autoSave then old(savedGrouping) + [r] else old(savedGrouping)
      ensures old(Saved()) && autoSave ==> Saved()
    {
      added := r !in grouping;
      if added {
        if autoSave {
          savedGrouping := savedGrouping + [r];
        }
        grouping := grouping + [r];
      }
    }

    method RemoveGroupingPolicy(r: Rule) returns (removed: bool)
      modifies this`grouping, this`savedGrouping
      ensures removed <==> r in old(grouping)
      ensures r !in grouping
      ensures grouping == Without(old(grouping), r)
      ensures savedGrouping == if removed && autoSave then Without(old(savedGrouping), r) else old(savedGrouping)
      ensures old(Saved()) && autoSave ==> Saved()
    {
      removed := r in grouping;
      if removed {
        if autoSave {
          savedGrouping := Without(savedGrouping, r);
        }
        grouping := Without(grouping, r);
      } else {
        WithoutAbsent(grouping, r);
      }
    }

    /** AddRoleForUser(user, role): the two-field grouping row user -> role. */
    method AddRoleForUser(user: string, role: string) returns (added: bool)
      modifies this`grouping, this`savedGrouping
      ensures added <==> Rule(user, role, "") !in old(grouping)
      ensures grouping == Inserted(old(grouping), Rule(user, role, ""))
      ensures savedGrouping == if added && autoSave then old(savedGrouping) + [Rule(user, role, "")] else old(savedGrouping)
      ensures Roles.Linked(grouping, user, role)
    {
      added := AddGroupingPolicy(Rule(user, role, ""));
      Roles.LinkedByRow(grouping, Rule(user, role, ""));
    }

    /** DeleteRoleForUser(user, role): removes the grouping row user -> role. */
    method DeleteRoleForUser(user: string, role: string) returns (removed: bool)
      modifies this`grouping, this`savedGrouping
      ensures removed <==> Rule(user, role, "") in old(grouping)
      ensures grouping == Without(old(grouping), Rule(user, role, ""))
      ensures savedGrouping == if removed && autoSave then Without(old(savedGrouping), Rule(user, role, "")) else old(savedGrouping)
    {
      removed := RemoveGroupingPolicy(Rule(user, role, ""));
    }

    /** GetRolesForUser(name): the names `name` is directly grouped into. */
    function GetRolesForUser(name: string): (roles: set<string>)
      reads this
      ensures forall role :: role in roles <==> Roles.Edge(grouping, name, role)
      ensures forall role :: role in roles ==> Roles.Linked(grouping, name, role)
    {
      var roles := Roles.Successors(grouping, {name});
      assert forall role :: role in roles ==> Roles.Linked(grouping, name, role) by {
        forall role | role in roles
          ensures Roles.Linked(grouping, name, role)
        {
          var r :| r in grouping && r.v0 == name && r.v1 == role;
          Roles.LinkedByRow(grouping, r);
        }
      }
      roles
    }

    function GetFilteredPolicy(fieldIndex: nat, value: string): (rows: seq<Rule>)
      requires fieldIndex < 3
      reads this
      ensures forall r :: r in rows <==> r in policy && FieldMatches(r, fieldIndex, value)
      ensures value == "" ==> rows == policy
    {
      Filtered(policy, fieldIndex, value)
    }

    function GetFilteredGroupingPolicy(fieldIndex: nat, value: string): (rows: seq<Rule>)
      requires fieldIndex < 3
      reads this
      ensures forall r :: r in rows <==> r in grouping && FieldMatches(r, fieldIndex, value)
      ensures value == "" ==> rows == grouping
    {
      Filtered(grouping, fieldIndex, value)
    }

    method LoadPolicy()
      modifies this`policy, this`grouping
      ensures policy == savedPolicy && grouping == savedGrouping
    {
      policy, grouping := savedPolicy, savedGrouping;
    }

    /** LoadFilteredPolicy({"v2": {"$in": actions}}): keeps only backing rows whose third field is in `actions`. */
    method LoadFilteredPolicy(actions: set<string>)
      modifies this`policy, this`grouping
      ensures policy == WithActionIn(savedPolicy, actions)
      ensures grouping == WithActionIn(savedGrouping, actions)
    {
      policy := WithActionIn(savedPolicy, actions);
      grouping := WithActionIn(savedGrouping, actions);
    }

    /** Enforce(sub, obj, act) under the model of `initPermissionSystem`. */
    function Enforce(sub: string, obj: string, act: string): (allowed: bool)
      reads this
      ensures allowed <==>
        exists p :: p in policy && Roles.Reachable(grouping, sub, p.v0)
                    && (obj == p.v1 || p.v1 == Wildcard)
                    && (act == p.v2 || p.v2 == Wildcard)
    {
      AllowedIffReachable(policy, grouping, Request(sub, obj, act));
      Decide(policy, grouping, Request(sub, obj, act))
    }
  }
}
