/**
  The role relation `g` of the matcher: `g(a, b)` holds when `b` can be reached from `a`
  by following grouping rows from their first field to their second, in any number of
  steps, zero included. The third field of a grouping row plays no part in `g`.

  `Closure` computes the set reachable from a set of names as the least set that contains
  them and is closed under one step; it terminates on cyclic groupings because each round
  adds a new name drawn from the finite set of second fields. `Reachable` is the
  independent definition by paths, and `LinkedIffReachable` ties the two together.
 */
module Roles {
  import opened Rules

  /** The second field of every grouping row whose first field is in `names`. */
  function Successors(rows: seq<Rule>, names: set<string>): set<string>
  {
    set r | r in rows && r.v0 in names :: r.v1
  }

  /** Every name that appears as the second field of a grouping row. */
  function Groups(rows: seq<Rule>): set<string>
  {
    set r | r in rows :: r.v1
  }

  lemma StepShrinksRemaining(rows: seq<Rule>, names: set<string>)
    requires !(names + Successors(rows, names) <= names)
    ensures |Groups(rows) - (names + Successors(rows, names))| < |Groups(rows) - names|
  {
    var next := names + Successors(rows, names);
    var x :| x in next && x !in names;
    assert x in Groups(rows);
    var before, after := Groups(rows) - names, Groups(rows) - next;
    var gone := before - after;
    assert x in gone;
    assert before == after + gone && after !! gone;
    assert |gone| >= 1;
  }

  /** The names reachable from `names`: the least superset of `names` closed under `Successors`. */
  function Closure(rows: seq<Rule>, names: set<string>): (c: set<string>)
    ensures names <= c
    ensures Successors(rows, c) <= c
    decreases |Groups(rows) - names|
  {
    var next := names + Successors(rows, names);
    if next <= names then names
    else
      StepShrinksRemaining(rows, names);
      Closure(rows, next)
  }

  /** `g(member, group)` of the matcher. */
  predicate Linked(rows: seq<Rule>, member: string, group: string)
  {
    group in Closure(rows, {member})
  }

  /** One grouping row leads from `a` to `b`. */
  ghost predicate Edge(rows: seq<Rule>, a: string, b: string)
  {
    exists r :: r in rows && r.v0 == a && r.v1 == b
  }

  ghost predicate IsPath(rows: seq<Rule>, p: seq<string>)
  {
    forall i :: 0 <= i < |p| - 1 ==> Edge(rows, p[i], p[i + 1])
  }

  /** Reference definition of `g`: a path of grouping rows leads from `a` to `b`. */
  ghost predicate Reachable(rows: seq<Rule>, a: string, b: string)
  {
    exists p :: IsPath(rows, p) && |p| > 0 && p[0] == a && p[|p| - 1] == b
  }

  lemma ReachableStep(rows: seq<Rule>, a: string, b: string, r: Rule)
    requires Reachable(rows, a, b) && r in rows && r.v0 == b
    ensures Reachable(rows, a, r.v1)
  {
    var p :| IsPath(rows, p) && |p| > 0 && p[0] == a && p[|p| - 1] == b;
    var q := p + [r.v1];
    forall i | 0 <= i < |q| - 1
      ensures Edge(rows, q[i], q[i + 1])
    {
      if i < |p| - 1 {
        assert q[i] == p[i] && q[i + 1] == p[i + 1];
      } else {
        assert q[i] == b && q[i + 1] == r.v1;
      }
    }
    assert IsPath(rows, q) && q[0] == a && q[|q| - 1] == r.v1;
  }

  /** Everything the closure adds is reachable, provided what it starts from is. */
  lemma {:induction false} ClosureSound(rows: seq<Rule>, a: string, names: set<string>)
    requires forall x :: x in names ==> Reachable(rows, a, x)
    ensures forall x :: x in Closure(rows, names) ==> Reachable(rows, a, x)
    decreases |Groups(rows) - names|
  {
    var next := names + Successors(rows, names);
    if !(next <= names) {
      forall x | x in next
        ensures Reachable(rows, a, x)
      {
        if x !in names {
          var r :| r in rows && r.v0 in names && r.v1 == x;
          ReachableStep(rows, a, r.v0, r);
        }
      }
      StepShrinksRemaining(rows, names);
      ClosureSound(rows, a, next);
    }
  }

  /** A set closed under `Successors` holds the end of every path that starts in it. */
  lemma {:induction false} PathStaysInClosedSet(rows: seq<Rule>, c: set<string>, p: seq<string>)
    requires Successors(rows, c) <= c
    requires IsPath(rows, p) && |p| > 0 && p[0] in c
    ensures p[|p| - 1] in c
    decreases |p|
  {
    if |p| > 1 {
      var q := p[..|p| - 1];
      assert IsPath(rows, q) by {
        forall i | 0 <= i < |q| - 1
          ensures Edge(rows, q[i], q[i + 1])
        {
          assert q[i] == p[i] && q[i + 1] == p[i + 1];
        }
      }
      PathStaysInClosedSet(rows, c, q);
      assert Edge(rows, p[|p| - 2], p[|p| - 1]);
      var r :| r in rows && r.v0 == p[|p| - 2] && r.v1 == p[|p| - 1];
      assert r.v1 in Successors(rows, c);
    }
  }

  /** `Closure` is the LEAST closed superset: it stays inside any closed set holding `names`. */
  lemma {:induction false} ClosureLeast(rows: seq<Rule>, names: set<string>, u: set<string>)
    requires names <= u && Successors(rows, u) <= u
    ensures Closure(rows, names) <= u
    decreases |Groups(rows) - names|
  {
    var next := names + Successors(rows, names);
    if !(next <= names) {
      assert Successors(rows, names) <= Successors(rows, u);
      StepShrinksRemaining(rows, names);
      ClosureLeast(rows, next, u);
    }
  }

  /** The computed relation `g` is exactly reachability along grouping rows. */
  lemma LinkedIffReachable(rows: seq<Rule>, a: string, b: string)
    ensures Linked(rows, a, b) <==> Reachable(rows, a, b)
  {
    if Linked(rows, a, b) {
      assert IsPath(rows, [a]);
      assert Reachable(rows, a, a);
      ClosureSound(rows, a, {a});
    }
    if Reachable(rows, a, b) {
      var p :| IsPath(rows, p) && |p| > 0 && p[0] == a && p[|p| - 1] == b;
      PathStaysInClosedSet(rows, Closure(rows, {a}), p);
    }
  }

  /** `g` is reflexive and contains every grouping row. */
  lemma LinkedByRow(rows: seq<Rule>, r: Rule)
    requires r in rows
    ensures Linked(rows, r.v0, r.v0)
    ensures Linked(rows, r.v0, r.v1)
  {
    var c := Closure(rows, {r.v0});
    assert r.v1 in Successors(rows, c);
  }

  /** `g` is transitive. */
  lemma LinkedTransitive(rows: seq<Rule>, a: string, b: string, c: string)
    requires Linked(rows, a, b) && Linked(rows, b, c)
    ensures Linked(rows, a, c)
  {
    LinkedIffReachable(rows, b, c);
    var p :| IsPath(rows, p) && |p| > 0 && p[0] == b && p[|p| - 1] == c;
    PathStaysInClosedSet(rows, Closure(rows, {a}), p);
  }

  /** Every path along `rows` is a path along any store holding at least the same rows. */
  lemma {:induction false} LinkedMonotonic(rows: seq<Rule>, more: seq<Rule>, a: string, b: string)
    requires forall r :: r in rows ==> r in more
    requires Linked(rows, a, b)
    ensures Linked(more, a, b)
  {
    var c := Closure(more, {a});
    assert Successors(rows, c) <= Successors(more, c);
    ClosureLeast(rows, {a}, c);
  }

  /** Cycles are harmless: two names grouped into each other reach exactly each other. */
  lemma CycleClosure(a: string, b: string, extra: string)
    ensures Closure([Rule(a, b, extra), Rule(b, a, extra)], {a}) == {a, b}
  {
    var rows := [Rule(a, b, extra), Rule(b, a, extra)];
    var c := Closure(rows, {a});
    assert b in Successors(rows, c) by {
      assert rows[0] in rows;
    }
    assert Successors(rows, {a, b}) <= {a, b};
    ClosureLeast(rows, {a}, {a, b});
  }
}
