/**
  The access decision of the RBAC model set up in `initPermissionSystem`:

    request  r = sub, obj, act
    policy   p = sub, obj, act
    effect   some(where (p.eft == allow))
    matcher  g(r.sub, p.sub) && (r.obj == p.obj || p.obj == "*") && (r.act == p.act || p.act == "*")

  Every policy row allows; there are no deny rows. A request is allowed when some policy
  row matches it, and denied when none does.
 */
module Matcher {
  import opened Rules
  import opened Roles

  datatype Request = Request(sub: string, obj: string, act: string)

  /** The matcher expression, for one policy row `p`. */
  predicate Matches(grouping: seq<Rule>, req: Request, p: Rule)
  {
    && Linked(grouping, req.sub, p.v0)
    && (req.obj == p.v1 || p.v1 == Wildcard)
    && (req.act == p.v2 || p.v2 == Wildcard)
  }

  /** The effect: scan the policy rows in order and allow at the first one that matches. */
  function Decide(policy: seq<Rule>, grouping: seq<Rule>, req: Request): (allowed: bool)
    ensures allowed <==> exists p :: p in policy && Matches(grouping, req, p)
  {
    if policy == [] then false
    else Matches(grouping, req, policy[0]) || Decide(policy[1..], grouping, req)
  }

  /**
    The decision, stated against the path definition of `g`: allowed exactly when some
    policy row's subject can be reached from the requester through grouping rows and its
    object and action are the requested ones or the wildcard.
   */
  lemma AllowedIffReachable(policy: seq<Rule>, grouping: seq<Rule>, req: Request)
    ensures Decide(policy, grouping, req) <==>
      exists p :: p in policy && Reachable(grouping, req.sub, p.v0)
                  && (req.obj == p.v1 || p.v1 == Wildcard)
                  && (req.act == p.v2 || p.v2 == Wildcard)
  {
    forall p | p in policy {
      LinkedIffReachable(grouping, req.sub, p.v0);
    }
  }

  /** More rows never take a permission away: adding policy or grouping rows cannot deny an allowed request. */
  lemma DecideMonotonic(policy: seq<Rule>, grouping: seq<Rule>, morePolicy: seq<Rule>, moreGrouping: seq<Rule>, req: Request)
    requires forall r :: r in policy ==> r in morePolicy
    requires forall r :: r in grouping ==> r in moreGrouping
    requires Decide(policy, grouping, req)
    ensures Decide(morePolicy, moreGrouping, req)
  {
    var p :| p in policy && Matches(grouping, req, p);
    LinkedMonotonic(grouping, moreGrouping, req.sub, p.v0);
    assert p in morePolicy && Matches(moreGrouping, req, p);
  }

  /** Row order is irrelevant: stores holding the same rows decide every request alike. */
  lemma DecideIgnoresOrder(policy: seq<Rule>, grouping: seq<Rule>, policy': seq<Rule>, grouping': seq<Rule>, req: Request)
    requires forall r :: r in policy <==> r in policy'
    requires forall r :: r in grouping <==> r in grouping'
    ensures Decide(policy, grouping, req) == Decide(policy', grouping', req)
  {
    if Decide(policy, grouping, req) {
      DecideMonotonic(policy, grouping, policy', grouping', req);
    }
    if Decide(policy', grouping', req) {
      DecideMonotonic(policy', grouping', policy, grouping, req);
    }
  }

  /** Adding a row (AddPolicy, AddGroupingPolicy) never turns an allowed request into a denied one. */
  lemma AddingNeverDenies(policy: seq<Rule>, grouping: seq<Rule>, p: Rule, g: Rule, req: Request)
    requires Decide(policy, grouping, req)
    ensures Decide(Inserted(policy, p), grouping, req)
    ensures Decide(policy, Inserted(grouping, g), req)
  {
    DecideMonotonic(policy, grouping, Inserted(policy, p), grouping, req);
    DecideMonotonic(policy, grouping, policy, Inserted(grouping, g), req);
  }

  /** Removing a row (RemovePolicy, RemoveGroupingPolicy) never turns a denied request into an allowed one. */
  lemma RemovingNeverAllows(policy: seq<Rule>, grouping: seq<Rule>, p: Rule, g: Rule, req: Request)
    requires !Decide(policy, grouping, req)
    ensures !Decide(Without(policy, p), grouping, req)
    ensures !Decide(policy, Without(grouping, g), req)
  {
    if Decide(Without(policy, p), grouping, req) {
      DecideMonotonic(Without(policy, p), grouping, policy, grouping, req);
    }
    if Decide(policy, Without(grouping, g), req) {
      DecideMonotonic(policy, Without(grouping, g), policy, grouping, req);
    }
  }

  /**
    A policy row with object and action "*" allows every request of a subject that reaches
    its subject: the admin role ("admin", "*", "*") lets anyone holding it do anything.
   */
  lemma WildcardRowAllowsAll(policy: seq<Rule>, grouping: seq<Rule>, role: string, user: string, obj: string, act: string)
    requires Rule(role, Wildcard, Wildcard) in policy
    requires Rule(user, role, "") in grouping
    ensures Decide(policy, grouping, Request(user, obj, act))
  {
    LinkedByRow(grouping, Rule(user, role, ""));
    assert Matches(grouping, Request(user, obj, act), Rule(role, Wildcard, Wildcard));
  }

  /**
    "*" is a wildcard on the policy side only: a request for object "*" is allowed only by
    rows whose object field is "*" itself, and a request for action "*" only by rows whose
    action field is "*".
   */
  lemma RequestWildcardIsLiteral(policy: seq<Rule>, grouping: seq<Rule>, req: Request)
    ensures req.obj == Wildcard ==>
      (Decide(policy, grouping, req) <==>
        exists p :: p in policy && Linked(grouping, req.sub, p.v0) && p.v1 == Wildcard
                    && (req.act == p.v2 || p.v2 == Wildcard))
    ensures req.act == Wildcard ==>
      (Decide(policy, grouping, req) <==>
        exists p :: p in policy && Linked(grouping, req.sub, p.v0) && p.v2 == Wildcard
                    && (req.obj == p.v1 || p.v1 == Wildcard))
  {
  }

  /** Permissions are inherited along chains of grouping rows: user -> group -> role. */
  lemma InheritedThroughChain(policy: seq<Rule>, grouping: seq<Rule>, user: string, group: string, role: string, obj: string, act: string)
    requires Rule(user, group, "") in grouping && Rule(group, role, "") in grouping
    requires Rule(role, obj, act) in policy
    ensures Decide(policy, grouping, Request(user, obj, act))
  {
    LinkedByRow(grouping, Rule(user, group, ""));
    LinkedByRow(grouping, Rule(group, role, ""));
    LinkedTransitive(grouping, user, group, role);
    assert Matches(grouping, Request(user, obj, act), Rule(role, obj, act));
  }

  /**
    A group's resource permission (the grouping row group -> resource, permission) changes
    no decision on its own: it only makes `g(group, resource)` hold, and that matters only
    when some policy row or grouping row has the resource as its subject.
   */
  lemma GroupGrantAloneChangesNothing(policy: seq<Rule>, grouping: seq<Rule>, grant: Rule, req: Request)
    requires forall p :: p in policy ==> p.v0 != grant.v1
    requires forall g :: g in grouping ==> g.v0 != grant.v1
    ensures Decide(policy, grouping + [grant], req) == Decide(policy, grouping, req)
  {
    var more := grouping + [grant];
    var c := Closure(grouping, {req.sub});
    var u := c + {grant.v1};
    assert Successors(more, u) <= u by {
      forall x | x in Successors(more, u)
        ensures x in u
      {
        var r :| r in more && r.v0 in u && r.v1 == x;
        if r != grant {
          assert r in grouping && r.v0 in c;
          assert x in Successors(grouping, c);
        }
      }
    }
    ClosureLeast(more, {req.sub}, u);
    if Decide(policy, more, req) {
      var p :| p in policy && Matches(more, req, p);
      assert p.v0 in c;
      assert Matches(grouping, req, p);
    }
    if Decide(policy, grouping, req) {
      DecideMonotonic(policy, grouping, policy, more, req);
    }
  }
}
