/**
  Rows of casbin's two stores, and the store operations the enforcer applies to them.

  Policy rows have the three fields of `p = sub, obj, act`. Grouping rows are written
  either with two fields (a role edge, user -> role) or with three (a group's resource
  permission, group -> resource, permission). A two-field row is represented with an
  empty third field, which is how the MongoDB adapter reads such a row back.
 */
module Rules {

  datatype Rule = Rule(v0: string, v1: string, v2: string)

  /** The value that matches anything in a policy row's object or action field. */
  const Wildcard: string := "*"

  function Field(r: Rule, fieldIndex: nat): string
    requires fieldIndex < 3
  {
    if fieldIndex == 0 then r.v0 else if fieldIndex == 1 then r.v1 else r.v2
  }

  /** Casbin's field filter: an empty filter value matches every row. */
  predicate FieldMatches(r: Rule, fieldIndex: nat, value: string)
    requires fieldIndex < 3
  {
    value == "" || Field(r, fieldIndex) == value
  }

  /** GetFilteredPolicy / GetFilteredGroupingPolicy: the rows that pass the field filter, in store order. */
  function Filtered(rows: seq<Rule>, fieldIndex: nat, value: string): (out: seq<Rule>)
    requires fieldIndex < 3
    ensures forall r :: r in out <==> r in rows && FieldMatches(r, fieldIndex, value)
    ensures |out| <= |rows|
    ensures value == "" ==> out == rows
  {
    if rows == [] then []
    else (if FieldMatches(rows[0], fieldIndex, value) then [rows[0]] else [])
         + Filtered(rows[1..], fieldIndex, value)
  }

  /** The rows whose third field is one of `actions`: the `{"v2": {"$in": actions}}` load filter. */
  function WithActionIn(rows: seq<Rule>, actions: set<string>): (out: seq<Rule>)
    ensures forall r :: r in out <==> r in rows && r.v2 in actions
    ensures |out| <= |rows|
  {
    if rows == [] then []
    else (if rows[0].v2 in actions then [rows[0]] else []) + WithActionIn(rows[1..], actions)
  }

  /** The in-memory effect of adding a row: appended when absent, a no-op when present. */
  function Inserted(rows: seq<Rule>, r: Rule): seq<Rule>
  {
    if r in rows then rows else rows + [r]
  }

  /** The in-memory effect of removing a row: every copy of it leaves, the rest keep their order. */
  function Without(rows: seq<Rule>, r: Rule): (out: seq<Rule>)
    ensures forall x :: x in out <==> x in rows && x != r
    ensures |out| <= |rows|
  {
    if rows == [] then []
    else (if rows[0] == r then [] else [rows[0]]) + Without(rows[1..], r)
  }

  /** Removing a row that is not stored changes nothing. */
  lemma {:induction false} WithoutAbsent(rows: seq<Rule>, r: Rule)
    requires r !in rows
    ensures Without(rows, r) == rows
  {
    if rows != [] {
      WithoutAbsent(rows[1..], r);
    }
  }

  /** Removing distributes over concatenation. */
  lemma {:induction false} WithoutAppend(rows: seq<Rule>, more: seq<Rule>, r: Rule)
    ensures Without(rows + more, r) == Without(rows, r) + Without(more, r)
  {
    if rows == [] {
      assert rows + more == more;
    } else {
      assert (rows + more)[1..] == rows[1..] + more;
      WithoutAppend(rows[1..], more, r);
    }
  }

  /**
    Delete undoes Add: removing a row right after adding it leaves the store as it was
    before the add, or without that row when it was already there.
   */
  lemma WithoutInserted(rows: seq<Rule>, r: Rule)
    ensures Without(Inserted(rows, r), r) == Without(rows, r)
    ensures r !in rows ==> Without(Inserted(rows, r), r) == rows
  {
    if r !in rows {
      WithoutAppend(rows, [r], r);
      assert Without([r], r) == [];
      WithoutAbsent(rows, r);
    }
  }

  /** Adding a row is idempotent, and afterwards the row is stored. */
  lemma InsertedIdempotent(rows: seq<Rule>, r: Rule)
    ensures r in Inserted(rows, r)
    ensures Inserted(Inserted(rows, r), r) == Inserted(rows, r)
    ensures forall x :: x in rows ==> x in Inserted(rows, r)
  {
  }
}
