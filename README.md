# Todo minimal API: creation contract and create/list pipeline

This project models the core of a small ASP.NET minimal API that stores Todo
items. It covers two pieces:

- **The creation contract.** `CreateTodoViewModel.MapTo` checks the posted
  `Title` against two rules: it must not be null, and it must be longer than
  5 characters. Each violated rule adds one notification to the view model's
  notification list. `MapTo` then always builds `Todo(id, Title, false)`.
- **The `v1/todos` pipeline.** GET returns the whole `Todos` table. POST calls
  `MapTo` and then checks `IsValid`. An invalid model gets BadRequest carrying
  its notifications, and the table is left alone. A valid model's Todo is
  appended, and the response is Created with location `/v1/todos/{id}`
  (section 15.3.2 of RFC 9110).

Layout:

- `models.dfy` (module `Models`): `Guid` (opaque, known by its text form),
  `Todo`, the title bound `5`, and the stored-row invariant (`done == false`,
  non-null title longer than 5 UTF-16 code units).
- `view_models.dfy` (module `ViewModels`): the two rules as pure functions,
  `TitleRules`, and the class `CreateTodoViewModel`. The class has fields
  `title` and `notifications`, and `MapTo` only appends to `notifications`.
- `api.dfy` (module `Api`): the `Response` results and `Location`. `HandlePost`
  is the POST handler stated on values. The class `TodoStore` holds the table
  as a `seq<Todo>`, with `List` (GET) and `Post` (POST) proved against
  `HandlePost`. `Replay` and `Accepted` state what a run of POST requests
  does to the table.

Facts about the source that shape the model:

- The POST handler has no authorization requirement, so none is modelled.
- Notifications are a list, and the model keeps the list.
- There is no separate "non-empty title" rule. An empty title fails the length rule.
- The length rule compares the title's .NET `Length`, which counts UTF-16 code
  units. A character outside the Basic Multilingual Plane, such as an emoji,
  counts as two.

## Model

| member | source | states |
|---|---|---|
| `ViewModels.TitleRules` | ViewModels/CreateTodoViewModel.cs:15-18 | Both rules are evaluated and there is one notification per violated rule, with no duplicates. The list is empty exactly when the title is non-null and longer than 5 UTF-16 code units. A null title yields the not-null notification, and only a null title does. A non-null title yields the length notification exactly when its UTF-16 length is at most 5, the empty string included. |
| `Models.Utf16Length` | ViewModels/CreateTodoViewModel.cs:18 | The length the rule compares counts each character as one or two UTF-16 code units, so it lies between the number of characters and twice that number. |
| `ViewModels.SupplementaryCharCountsTwice` | ViewModels/CreateTodoViewModel.cs:18 | A title of four letters and one emoji has five characters but six UTF-16 code units, so it passes both rules. |
| `ViewModels.CreateTodoViewModel.constructor` | ViewModels/CreateTodoViewModel.cs:8-11 | A bound view model holds the posted title and starts with no notifications, so it starts valid. |
| `ViewModels.CreateTodoViewModel.MapTo` | ViewModels/CreateTodoViewModel.cs:13-22 | Only the notification list changes, and only by appending the rules' notifications. The title is untouched, and earlier entries are kept, so an invalid model stays invalid. Afterwards the model is valid exactly when it was valid before and the title passes both rules. The Todo is returned whatever the outcome, and it carries the given id, the model's title and done = false. |
| `Api.Location` | Program.cs:25 | The location of a created Todo lies under `/v1/todos/`, and reading it back yields exactly that Todo's id. |
| `Api.HandlePost` | Program.cs:15-27 | POST answers either BadRequest or Created. It answers Created exactly when the model held no notifications before `MapTo` and the title passes both rules. BadRequest carries the model's non-empty notification list and leaves the table unchanged. Created appends exactly `Todo(id, title, false)`, which satisfies the row invariant, and keeps all earlier rows in place. Its location names that Todo's id. A table whose rows all satisfy the invariant still does after the POST. |
| `Api.TodoStore.constructor` | Data/AppDbContext.cs:9 | The store starts with the table as found in storage. The row invariant holds from the start when the stored rows satisfy it. |
| `Api.TodoStore.List` | Program.cs:9-13 | GET answers 200 with every stored Todo, and it changes nothing. |
| `Api.TodoStore.Post` | Program.cs:15-27 | The response and the new table are those of `HandlePost`, computed on the old table, the model's notifications before `MapTo` and its title. The model gains exactly the rules' notifications. The validity check comes after `MapTo`. On BadRequest the response carries the model's notifications and the table is unchanged. On Created the table grows by exactly the returned Todo, and the location is that Todo's. The row invariant of the table is preserved. |
| `Api.FreshPost` | Program.cs:17-23 | A POST with a freshly bound model grows the table by its Todo when the title is valid, and by nothing otherwise. |
| `Api.AcceptedRowsOk` | ViewModels/CreateTodoViewModel.cs:17-22 | Every Todo that a valid request contributes satisfies the row invariant. At most one Todo is contributed per request. |
| `Api.ReplayAppendsAccepted` | Program.cs:15-27 | Over any run of POST requests, every earlier row stays in place. Exactly the Todos of the valid requests are appended, in request order. |
| `Api.ReplayKeepsRowsOk` | Program.cs:17-23 | After any run of POST requests on a table that satisfies the row invariant, every stored row still has done = false and a non-null title longer than 5 UTF-16 code units. The table grows by at most one row per request. |

## Left out

- The Entity Framework / SQLite configuration and `SaveChanges`: the table is an in-memory sequence, and add-then-save is one atomic append. Storage failures are not modelled.
- `Guid.NewGuid()`: the id is a parameter. Its uniqueness is not modelled, and neither is the exact Guid text format.
- Route registration, model binding, JSON serialization and `app.Run()`: responses are the `Response` datatype. Binding is the view-model constructor.
- The notification wording and key/message layout of the validation library: a notification is only which rule it reports.
- ViewModels.TitleRules: the model gives a null title only the not-null notification. Its contract promises that notification but says nothing about whether the length rule also fires on null, which depends on the validation library.
- Listing order: `ToList()` without an ordering promises no order. The model's table keeps insertion order, and `List` returns it in that order.
- Concurrent requests on the shared-cache database: requests are handled one at a time.
- Authentication, token issuing, authorization policies, lockout, update, delete and get-by-id: none of these appear in the modelled files.
