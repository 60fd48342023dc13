/** The two `v1/todos` handlers over an in-memory Todo table: GET lists the
    table, POST maps and validates the view model and stores the Todo only
    when the model is valid. */
module Api {
  import opened Models
  import opened ViewModels

  /** The HTTP results the handlers produce. */
  datatype Response =
    | Ok(items: seq<Todo>)
    | BadRequest(errors: seq<Notification>)
    | Created(location: string, item: Todo)
  {
    function StatusCode(): (code: nat) {
      match this
      case Ok(_) => 200
      case BadRequest(_) => 400
      case Created(_, _) => 201
    }
  }

  const CollectionPath: string := "/v1/todos/"

  /** The id a location under the collection path names, if any: the inverse
      of `Location`, as a client reads a Created response. */
  function ResourceId(location: string): (id: Option<Guid>) {
    if |CollectionPath| <= |location| && location[..|CollectionPath|] == CollectionPath
    then Some(Guid(location[|CollectionPath|..]))
    else None
  }

  /** The location of a created Todo (section 15.3.2 of RFC 9110). */
  function Location(id: Guid): (r: string)
    ensures ResourceId(r) == Some(id)
  {
    CollectionPath + id.text
  }

  /** What a POST yields: the response and the table afterwards. */
  datatype PostResult = PostResult(response: Response, table: seq<Todo>)

  /** The POST handler on values: `pending` are the notifications the model
      already held before `MapTo`, `title` its title, `id` the fresh Guid. */
  function HandlePost(table: seq<Todo>, pending: seq<Notification>, title: Option<string>, id: Guid): (o: PostResult)
    ensures o.response.BadRequest? || o.response.Created?
    ensures o.response.Created? <==> pending == [] && ValidTitle(title)
    ensures o.response.BadRequest? ==>
              o.table == table && o.response.errors == pending + TitleRules(title) && o.response.errors != []
    ensures o.response.Created? ==>
              o.table == table + [o.response.item] &&
              o.response.item == Todo(id, title, false) &&
              StoredRowOk(o.response.item) &&
              ResourceId(o.response.location) == Some(o.response.item.id)
    ensures AllRowsOk(table) ==> AllRowsOk(o.table)
  {
    var notifications := pending + TitleRules(title);
    var todo := Todo(id, title, false);
    if notifications != [] then PostResult(BadRequest(notifications), table)
    else PostResult(Created(Location(todo.id), todo), table + [todo])
  }

  /** The `Todos` table, with add-then-save as one atomic append. */
  class TodoStore {
    var todos: seq<Todo>

    /** Every stored row satisfies the data invariant. */
    predicate Valid()
      reads this
    {
      AllRowsOk(todos)
    }

    /** The table as found in storage. Storage may hold rows that were not
        written through POST, so `Valid()` is not a class invariant: it holds
        from the start only when the stored rows satisfy it, and POST keeps it. */
    constructor (initial: seq<Todo>)
      ensures todos == initial
      ensures AllRowsOk(initial) ==> Valid()
    {
      todos := initial;
    }

    /** GET v1/todos: the whole table, unchanged. */
    method List() returns (resp: Response)
      ensures resp == Ok(todos) && resp.StatusCode() == 200
    {
      resp := Ok(todos);
    }

    /** POST v1/todos: map the model, then persist only if it is valid. */
    method Post(model: CreateTodoViewModel, id: Guid) returns (resp: Response)
      modifies this, model`notifications
      ensures model.notifications == old(model.notifications) + TitleRules(model.title)
      ensures PostResult(resp, todos) == HandlePost(old(todos), old(model.notifications), model.title, id)
      ensures resp.BadRequest? ==> resp.errors == model.notifications && todos == old(todos)
      ensures resp.Created? ==> todos == old(todos) + [resp.item] && resp.location == Location(resp.item.id)
      ensures old(Valid()) ==> Valid()
    {
      var todo := model.MapTo(id);
      if !model.IsValid() {
        resp := BadRequest(model.notifications);
        return;
      }
      todos := todos + [todo];
      resp := Created(Location(todo.id), todo);
    }
  }

  /** One POST request as it reaches the handler: a freshly bound model with
      this title, and the Guid generated for it. */
  datatype Request = Request(title: Option<string>, id: Guid)

  /** The table after handling `reqs` one after another, starting from `table`. */
  function Replay(table: seq<Todo>, reqs: seq<Request>): (t: seq<Todo>)
    decreases |reqs|
  {
    if reqs == [] then table
    else Replay(FreshPost(table, reqs[0]), reqs[1..])
  }

  /** The table after one request on a freshly bound model: it grows by the
      request's contribution and by nothing else. */
  function FreshPost(table: seq<Todo>, r: Request): (t: seq<Todo>)
    ensures t == table + Contribution(r)
  {
    HandlePost(table, [], r.title, r.id).table
  }

  /** The Todo a single fresh request contributes to the table, if any. */
  function Contribution(r: Request): (t: seq<Todo>) {
    if ValidTitle(r.title) then [Todo(r.id, r.title, false)] else []
  }

  /** Reference definition: the Todos of exactly the requests with a valid
      title, in request order. */
  function Accepted(reqs: seq<Request>): (t: seq<Todo>)
    decreases |reqs|
  {
    if reqs == [] then [] else Contribution(reqs[0]) + Accepted(reqs[1..])
  }

  lemma {:induction false} AcceptedRowsOk(reqs: seq<Request>)
    ensures AllRowsOk(Accepted(reqs))
    ensures |Accepted(reqs)| <= |reqs|
    decreases |reqs|
  {
    if reqs != [] {
      AcceptedRowsOk(reqs[1..]);
    }
  }

  /** A run of POSTs keeps every earlier row in place and appends exactly the
      valid requests' Todos; invalid requests leave no trace. */
  lemma {:induction false} ReplayAppendsAccepted(table: seq<Todo>, reqs: seq<Request>)
    ensures Replay(table, reqs) == table + Accepted(reqs)
    decreases |reqs|
  {
    if reqs != [] {
      var r, rest := reqs[0], reqs[1..];
      var next := FreshPost(table, r);
      ReplayAppendsAccepted(next, rest);
      assert Replay(table, reqs) == next + Accepted(rest);
      assert Accepted(reqs) == Contribution(r) + Accepted(rest);
      assert next + Accepted(rest) == table + (Contribution(r) + Accepted(rest));
    }
  }

  /** The row invariant holds after any run of POSTs on a table that had it. */
  lemma {:induction false} ReplayKeepsRowsOk(table: seq<Todo>, reqs: seq<Request>)
    requires AllRowsOk(table)
    ensures AllRowsOk(Replay(table, reqs))
    ensures |table| <= |Replay(table, reqs)| <= |table| + |reqs|
  {
    ReplayAppendsAccepted(table, reqs);
    AcceptedRowsOk(reqs);
    var acc := Accepted(reqs);
    assert forall i :: |table| <= i < |table| + |acc| ==> (table + acc)[i] == acc[i - |table|];
  }
}
