/**
 * The file-backed expense collection endpoint: GET lists the stored
 * expenses, POST appends one with the next id, anything else is refused.
 * Reading and writing the JSON file are abstracted to "the list read in"
 * and "the list written out".
 */
module Expenses {
  import opened Wrappers

  datatype Expense = Expense(id: int, description: string, value: real)

  /** A POST body, `{ description, value }`, with `value` already numeric. */
  datatype NewExpense = NewExpense(description: string, value: real)

  /** The data file as the handler finds it. */
  datatype DataFile = Missing | EmptyFile | Stored(records: seq<Expense>)

  datatype ResponseBody = Listing(expenses: seq<Expense>) | Created(expense: Expense) | Message(text: string)

  datatype Response = Response(status: int, body: ResponseBody)

  /** The list the handler starts from: a missing or empty file reads as no expenses. */
  function Load(file: DataFile): (r: seq<Expense>)
    ensures file.Stored? ==> r == file.records
    ensures !file.Stored? ==> r == []
  {
    match file
    case Stored(records) => records
    case _ => []
  }

  /** The id a POST assigns: one more than the last record's, or 1 for an empty list. */
  function NextId(expenses: seq<Expense>): (r: int)
  {
    if |expenses| > 0 then expenses[|expenses| - 1].id + 1 else 1
  }

  /** The list after a POST of `body`. */
  function Posted(expenses: seq<Expense>, body: NewExpense): (r: seq<Expense>)
  {
    expenses + [Expense(NextId(expenses), body.description, body.value)]
  }

  /** Ids strictly increase along the list. */
  ghost predicate IdsIncreasing(expenses: seq<Expense>) {
    forall i, j :: 0 <= i < j < |expenses| ==> expenses[i].id < expenses[j].id
  }

  /** `handler`: dispatch on the HTTP method; the second result is the list written back, if any. */
  method Handle(file: DataFile, httpMethod: string, body: NewExpense) returns (response: Response, written: Option<seq<Expense>>)
    ensures httpMethod == "GET" ==> response == Response(200, Listing(Load(file))) && written == None
    ensures httpMethod == "POST" ==>
      && written == Some(Posted(Load(file), body))
      && response.status == 201
      && response.body == Created(written.value[|written.value| - 1])
    ensures httpMethod != "GET" && httpMethod != "POST" ==>
      response == Response(405, Message("Method not allowed")) && written == None
  {
    var expenses := Load(file);
    if httpMethod == "GET" {
      return Response(200, Listing(expenses)), None;
    } else if httpMethod == "POST" {
      expenses := Posted(expenses, body);
      return Response(201, Created(expenses[|expenses| - 1])), Some(expenses);
    } else {
      return Response(405, Message("Method not allowed")), None;
    }
  }

  /** A POST appends exactly one record carrying the body and keeps every earlier record. */
  lemma PostAppendsOne(expenses: seq<Expense>, body: NewExpense)
    ensures |Posted(expenses, body)| == |expenses| + 1
    ensures Posted(expenses, body)[..|expenses|] == expenses
    ensures var e := Posted(expenses, body)[|expenses|];
            e.description == body.description && e.value == body.value
    ensures expenses == [] ==> Posted(expenses, body)[0].id == 1
    ensures expenses != [] ==> Posted(expenses, body)[|expenses|].id == expenses[|expenses| - 1].id + 1
  {
  }

  /** With increasing ids, the new id is larger than, hence different from, every stored id, and the ids keep increasing. */
  lemma PostKeepsIdsIncreasing(expenses: seq<Expense>, body: NewExpense)
    requires IdsIncreasing(expenses)
    ensures forall k :: 0 <= k < |expenses| ==> expenses[k].id < NextId(expenses)
    ensures IdsIncreasing(Posted(expenses, body))
  {
  }

  /** Without increasing ids the assigned id can repeat one already stored. */
  lemma UnorderedFileCanRepeatId()
    ensures var s := [Expense(2, "a", 1.0), Expense(1, "b", 1.0)];
            NextId(s) == s[0].id
  {
  }

  /** The list after POSTing every body in turn. */
  function PostAll(expenses: seq<Expense>, bodies: seq<NewExpense>): (r: seq<Expense>)
    decreases |bodies|
  {
    if bodies == [] then expenses else PostAll(Posted(expenses, bodies[0]), bodies[1..])
  }

  /**
   * A run of POSTs keeps the records it started with and appends one record
   * per body, in order, with consecutive ids starting at `NextId`.
   */
  lemma {:induction false} PostAllAppends(expenses: seq<Expense>, bodies: seq<NewExpense>)
    ensures |PostAll(expenses, bodies)| == |expenses| + |bodies|
    ensures PostAll(expenses, bodies)[..|expenses|] == expenses
    ensures forall k :: 0 <= k < |bodies| ==>
      PostAll(expenses, bodies)[|expenses| + k]
        == Expense(NextId(expenses) + k, bodies[k].description, bodies[k].value)
    decreases |bodies|
  {
    if bodies != [] {
      var next := Posted(expenses, bodies[0]);
      PostAllAppends(next, bodies[1..]);
      var r := PostAll(expenses, bodies);
      assert r == PostAll(next, bodies[1..]);
      assert r[..|expenses|] == r[..|next|][..|expenses|];
      assert NextId(next) == NextId(expenses) + 1;
      forall k | 0 <= k < |bodies|
        ensures r[|expenses| + k] == Expense(NextId(expenses) + k, bodies[k].description, bodies[k].value)
      {
        if k == 0 {
          assert r[|expenses|] == r[..|next|][|expenses|];
        } else {
          assert r[|next| + (k - 1)] == Expense(NextId(next) + (k - 1), bodies[1..][k - 1].description, bodies[1..][k - 1].value);
        }
      }
    }
  }

  /** Starting from an empty file, the n-th POST gets id n. */
  lemma PostsFromEmptyNumberFromOne(bodies: seq<NewExpense>)
    ensures |PostAll([], bodies)| == |bodies|
    ensures forall k :: 0 <= k < |bodies| ==> PostAll([], bodies)[k].id == k + 1
    ensures IdsIncreasing(PostAll([], bodies))
  {
    var empty: seq<Expense> := [];
    PostAllAppends(empty, bodies);
    var r := PostAll(empty, bodies);
    forall k | 0 <= k < |bodies| ensures r[k].id == k + 1 {
      assert r[|empty| + k] == Expense(NextId(empty) + k, bodies[k].description, bodies[k].value);
    }
  }
}
