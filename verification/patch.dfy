/**
 * The dynamic UPDATE statement that the Go handlers build from a PATCH body
 * (blog.go, projects.go, education.go twice, skills.go), and the replies they derive
 * from the database outcome.
 *
 * The body is a Go `map[string]interface{}`; Go ranges over a map in an unspecified order,
 * so every operation takes that order as a parameter (`IsIterationOrder`) and the
 * properties that matter are proved for all orders.
 */
module Patch {
  import opened Text
  import opened Js
  import opened Wrappers

  /** `allowedFields`: reading a missing key yields false, as Go's map index does. */
  type Allowlist = map<string, bool>

  predicate Allowed(allow: Allowlist, field: string) {
    field in allow && allow[field]
  }

  /** `order` is one order in which `range` may visit the keys of `m`: each key exactly once. */
  predicate IsIterationOrder<V>(order: seq<string>, m: map<string, V>) {
    && Distinct(order)
    && (forall k | k in m :: k in order)
    && (forall i | 0 <= i < |order| :: order[i] in m)
  }

  /** The keys the loop turns into SET fragments, in visiting order. */
  function Kept(order: seq<string>, allow: Allowlist): (cols: seq<string>)
    ensures |cols| <= |order|
  {
    if order == [] then []
    else
      var last := order[|order| - 1];
      Kept(order[..|order| - 1], allow) + (if Allowed(allow, last) then [last] else [])
  }

  /** The kept keys are exactly the allowlisted ones among those visited. */
  lemma {:induction false} KeptMembers(order: seq<string>, allow: Allowlist)
    ensures forall c :: c in Kept(order, allow) <==> c in order && Allowed(allow, c)
  {
    if order != [] {
      var init := order[..|order| - 1];
      KeptMembers(init, allow);
      assert order == init + [order[|order| - 1]];
    }
  }

  /** Filtering keeps a list of distinct keys distinct. */
  lemma {:induction false} KeptDistinct(order: seq<string>, allow: Allowlist)
    requires Distinct(order)
    ensures Distinct(Kept(order, allow))
  {
    if order != [] {
      var init := order[..|order| - 1];
      assert Distinct(init);
      KeptDistinct(init, allow);
      KeptMembers(init, allow);
      assert order[|order| - 1] !in init;
    }
  }

  /** One `, field = $n` fragment. */
  function Fragment(col: string, n: nat): string {
    ", " + col + " = $" + NatToString(n)
  }

  /** The fragments for `cols`, numbering placeholders consecutively from `first`. */
  function Sets(cols: seq<string>, first: nat): string {
    if cols == [] then "" else Fragment(cols[0], first) + Sets(cols[1..], first + 1)
  }

  /** Appending a column appends its fragment, numbered after all earlier ones. */
  lemma {:induction false} SetsSnoc(cols: seq<string>, c: string, first: nat)
    ensures Sets(cols + [c], first) == Sets(cols, first) + Fragment(c, first + |cols|)
    decreases |cols|
  {
    if cols == [] {
      assert Sets([c], first) == Fragment(c, first) + Sets([], first + 1);
    } else {
      assert (cols + [c])[1..] == cols[1..] + [c];
      SetsSnoc(cols[1..], c, first + 1);
    }
  }

  /** The statement's fixed start, which always refreshes `updated_at`. */
  function Head(table: string): string {
    "UPDATE " + table + " SET updated_at = CURRENT_TIMESTAMP"
  }

  /** The WHERE clause binding the id at placeholder `n`. */
  function Tail(n: nat): string {
    " WHERE id = $" + NatToString(n) + " RETURNING *"
  }

  /** A bound argument: a body value, or the parsed path id. */
  datatype Arg = Value(v: Json) | Id(id: string)

  /** The body value of `field`; the builder only looks up keys the body has. */
  function Field(updates: map<string, Json>, field: string): Json {
    if field in updates then updates[field] else JNull
  }

  /**
   * The values bound to `cols`, each passed through `convert` (the identity except in
   * `UpdateModule`, which rewrites `detailed_content`).
   */
  function Values(cols: seq<string>, updates: map<string, Json>, convert: (string, Json) -> Json): (args: seq<Arg>)
    ensures |args| == |cols|
    ensures forall i | 0 <= i < |cols| :: args[i] == Value(convert(cols[i], Field(updates, cols[i])))
  {
    if cols == [] then []
    else
      var last := cols[|cols| - 1];
      Values(cols[..|cols| - 1], updates, convert) + [Value(convert(last, Field(updates, last)))]
  }

  /** The column each SET fragment assigns, keyed by column: what the statement means. */
  function Assignment(updates: map<string, Json>, allow: Allowlist, convert: (string, Json) -> Json): (m: map<string, Json>)
    ensures forall c :: c in m <==> c in updates && Allowed(allow, c)
  {
    map c | c in updates && Allowed(allow, c) :: convert(c, updates[c])
  }

  /**
   * The loop shared by the four update handlers: one fragment and one argument per
   * allowlisted key in visiting order, then the id at the next placeholder.
   */
  method BuildUpdate(table: string, allow: Allowlist, updates: map<string, Json>, order: seq<string>,
                     convert: (string, Json) -> Json, id: string)
    returns (query: string, args: seq<Arg>)
    requires IsIterationOrder(order, updates)
    ensures var cols := Kept(order, allow);
            && query == Head(table) + Sets(cols, 1) + Tail(|cols| + 1)
            && args == Values(cols, updates, convert) + [Id(id)]
  {
    var position;
    query, args, position := AppendSets(Head(table), allow, updates, order, convert);
    query := query + Tail(position);
    args := args + [Id(id)];
  }

  /** The `range` loop itself: appends one fragment and one value per allowlisted key. */
  method AppendSets(start: string, allow: Allowlist, updates: map<string, Json>, order: seq<string>,
                    convert: (string, Json) -> Json)
    returns (query: string, args: seq<Arg>, position: nat)
    requires IsIterationOrder(order, updates)
    ensures query == start + Sets(Kept(order, allow), 1)
    ensures args == Values(Kept(order, allow), updates, convert)
    ensures position == |Kept(order, allow)| + 1
  {
    query := start;
    args := [];
    position := 1;
    var i := 0;
    ghost var cols: seq<string> := [];
    while i < |order|
      invariant 0 <= i <= |order|
      invariant cols == Kept(order[..i], allow)
      invariant position == |cols| + 1
      invariant query == start + Sets(cols, 1)
      invariant args == Values(cols, updates, convert)
    {
      var field := order[i];
      KeptStep(order, allow, i);
      if Allowed(allow, field) {
        assert Sets(cols + [field], 1) == Sets(cols, 1) + Fragment(field, position) by {
          SetsSnoc(cols, field, 1);
        }
        assert Values(cols + [field], updates, convert) == args + [Value(convert(field, Field(updates, field)))] by {
          ValuesSnoc(cols, field, updates, convert);
        }
        assert query + Fragment(field, position) == start + Sets(cols + [field], 1) by {
          Append3(start, Sets(cols, 1), Fragment(field, position));
        }
        query := query + Fragment(field, position);
        args := args + [Value(convert(field, updates[field]))];
        position := position + 1;
        cols := cols + [field];
      }
      i := i + 1;
    }
    assert order[..i] == order;
  }

  lemma Append3(a: string, b: string, c: string)
    ensures (a + b) + c == a + (b + c) == a + b + c
  {
  }

  lemma KeptStep(order: seq<string>, allow: Allowlist, i: nat)
    requires i < |order|
    ensures Allowed(allow, order[i]) ==> Kept(order[..i + 1], allow) == Kept(order[..i], allow) + [order[i]]
    ensures !Allowed(allow, order[i]) ==> Kept(order[..i + 1], allow) == Kept(order[..i], allow)
  {
    assert order[..i + 1][..i] == order[..i];
  }

  lemma ValuesSnoc(cols: seq<string>, c: string, updates: map<string, Json>, convert: (string, Json) -> Json)
    ensures Values(cols + [c], updates, convert) == Values(cols, updates, convert) + [Value(convert(c, Field(updates, c)))]
  {
    assert (cols + [c])[..|cols|] == cols;
  }

  /**
   * What any built statement does: the SET columns are distinct and are exactly the
   * allowlisted keys of the body, the i-th value is bound at $(i+1), and the id sits last
   * at $(k+1), so there are k+1 arguments.
   */
  lemma BuiltStatementShape(allow: Allowlist, updates: map<string, Json>, order: seq<string>,
                            convert: (string, Json) -> Json, id: string)
    requires IsIterationOrder(order, updates)
    ensures var cols := Kept(order, allow);
            var args := Values(cols, updates, convert) + [Id(id)];
            && Distinct(cols)
            && (forall c :: c in cols <==> c in updates && Allowed(allow, c))
            && |args| == |cols| + 1
            && args[|cols|] == Id(id)
            && (forall i | 0 <= i < |cols| :: args[i] == Value(Assignment(updates, allow, convert)[cols[i]]))
  {
    KeptDistinct(order, allow);
    KeptMembers(order, allow);
  }

  lemma {:induction false} DistinctCard(xs: seq<string>)
    requires Distinct(xs)
    ensures |set x | x in xs| == |xs|
  {
    if xs != [] {
      var init := xs[..|xs| - 1];
      assert Distinct(init);
      DistinctCard(init);
      var last := xs[|xs| - 1];
      assert (set x | x in xs) == (set x | x in init) + {last};
      assert last !in init;
    }
  }

  /**
   * The range order does not matter: any two orders bind the same number of arguments,
   * and both statements assign every column the same value.
   */
  lemma OrderIrrelevant(allow: Allowlist, updates: map<string, Json>, order1: seq<string>, order2: seq<string>)
    requires IsIterationOrder(order1, updates) && IsIterationOrder(order2, updates)
    ensures |Kept(order1, allow)| == |Kept(order2, allow)|
    ensures forall c :: c in Kept(order1, allow) <==> c in Kept(order2, allow)
  {
    var k1, k2 := Kept(order1, allow), Kept(order2, allow);
    KeptMembers(order1, allow);
    KeptMembers(order2, allow);
    KeptDistinct(order1, allow);
    KeptDistinct(order2, allow);
    DistinctCard(k1);
    DistinctCard(k2);
    assert (set x | x in k1) == (set x | x in k2);
  }

  /** The outcome of a handler before the database runs: a 400 reply, or a statement to run. */
  datatype Handled = Reject(status: int, message: string) | Execute(query: string, args: seq<Arg>)

  /**
   * The common update flow: the path id is checked before the body is parsed, and only a
   * parsed body reaches the builder.
   */
  method HandleUpdate(table: string, allow: Allowlist, convert: (string, Json) -> Json,
                      id: string, isUuid: string -> bool, badId: string, badBody: string,
                      body: Option<map<string, Json>>, order: seq<string>)
    returns (r: Handled)
    requires body.Some? ==> IsIterationOrder(order, body.value)
    ensures !isUuid(id) ==> r == Reject(400, badId)
    ensures isUuid(id) && body.None? ==> r == Reject(400, badBody)
    ensures r.Execute? <==> isUuid(id) && body.Some?
    ensures r.Execute? ==>
              var cols := Kept(order, allow);
              && r.query == Head(table) + Sets(cols, 1) + Tail(|cols| + 1)
              && r.args == Values(cols, body.value, convert) + [Id(id)]
  {
    if !isUuid(id) {
      return Reject(400, badId);
    }
    if body.None? {
      return Reject(400, badBody);
    }
    var query, args := BuildUpdate(table, allow, body.value, order, convert, id);
    return Execute(query, args);
  }

  /**
   * What the database returned for a single-row query; a failure carries the driver's
   * `err.Error()` text, which is opaque to the model.
   */
  datatype RowResult = Row(row: Json) | NoRows | QueryFailed(err: string)

  /** An HTTP reply: status and JSON body. */
  datatype Reply = Reply(status: int, body: Json)

  function ErrorBody(message: string): Json {
    JObj(map["error" := JStr(message)])
  }

  /** `{"error": message, "details": err.Error()}`, the body the module handlers fail with. */
  function DetailedErrorBody(message: string, details: string): Json {
    JObj(map["error" := JStr(message), "details" := JStr(details)])
  }

  /** `{"success": true, "data": row}`. */
  function SuccessBody(row: Json): Json {
    JObj(map["success" := JBool(true), "data" := row])
  }

  /**
   * The reply to an executed UPDATE ... RETURNING *: the row (bare or wrapped, per handler),
   * 404 on no rows, 500 on any other error, with the driver's text as `details` where the
   * handler sends it.
   */
  function UpdateReply(result: RowResult, wrapped: bool, notFound: string, failure: string,
                       withDetails: bool): (r: Reply)
    ensures r.status == 200 <==> result.Row?
    ensures r.status == 404 <==> result.NoRows?
    ensures r.status == 500 <==> result.QueryFailed?
    ensures result.Row? ==> r.body == (if wrapped then SuccessBody(result.row) else result.row)
    ensures result.NoRows? ==> r.body == ErrorBody(notFound)
    ensures result.QueryFailed? ==>
              r.body == (if withDetails then DetailedErrorBody(failure, result.err) else ErrorBody(failure))
  {
    match result
    case Row(row) => Reply(200, if wrapped then SuccessBody(row) else row)
    case NoRows => Reply(404, ErrorBody(notFound))
    case QueryFailed(err) =>
      Reply(500, if withDetails then DetailedErrorBody(failure, err) else ErrorBody(failure))
  }

  /**
   * The common delete flow: a bad id is a 400 before any statement runs, an exec error is
   * `execFailStatus` (500, except 400 for skills), and zero affected rows is a 404.
   * `rows` is None when the DELETE itself failed.
   */
  function DeleteReply(idValid: bool, rows: Option<nat>, badId: string, execFailStatus: int,
                       failure: string, notFound: string, deleted: string): (r: Reply)
    ensures !idValid ==> r == Reply(400, ErrorBody(badId))
    ensures idValid && rows.None? ==> r == Reply(execFailStatus, ErrorBody(failure))
    ensures idValid && rows.Some? ==> (r.status == 404 <==> rows.value == 0)
    ensures idValid && rows.Some? && rows.value > 0 ==> r == Reply(200, JObj(map["message" := JStr(deleted)]))
  {
    if !idValid then Reply(400, ErrorBody(badId))
    else match rows
      case None => Reply(execFailStatus, ErrorBody(failure))
      case Some(n) =>
        if n == 0 then Reply(404, ErrorBody(notFound))
        else Reply(200, JObj(map["message" := JStr(deleted)]))
  }
}
