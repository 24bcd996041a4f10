# Note service handlers, modelled in Dafny

The service stores notes (an integer primary key and a non-null content
string) and exposes four HTTP handlers: `POST /note` and `GET`, `PUT`,
`DELETE` on `/note/<id>`. Each POST, GET, PUT and DELETE request adds 1 to
one of four counters (`get_counter`, `post_counter`, `put_counter`,
`delete_counter`). There are
two copies of the handlers:

- `app/routes.py` is the blueprint of the `app` package. Every branch of
  `handle_note` answers 404 with `{'id': id}` when the row is missing.
- `main.py` is a standalone application. It has the same `create_note`, but
  its `handle_note` does not check the row, so a request for an unknown id
  is counted and then raises.

The model has four modules:

- `Notes` (`notes.dfy`) holds the shared shape:
  - the `Note` row and `Find`, the lookup by primary key;
  - the request body's `content` field (`Payload`: missing, JSON `null`, or text);
  - the responses (`Outcome`: a status with a body, or a raised `Failure`);
  - the four counters (`Counters`, with `Bump` for `add(1)`);
  - the `Service` class, whose fields are the note table (`map<int, string>`)
    and the four counters as `nat`;
  - `Create`, the POST step. Both files write it the same way.
- `Routes` (`routes.dfy`) holds the guarded `handle_note` as a function
  `Handle`, and the two handlers as module-level methods that update a
  `Service`. Each method is
  proved to leave the state and give the answer that the function computes
  from the old state.
- `MainApp` (`main_app.dfy`) does the same for the unguarded handlers of
  `main.py`.
- `Versions` (`versions.dfy`) holds two kinds of lemma:
  - where the two versions agree (every id that has a row) and where they
    differ (ids without a row);
  - lemmas over any sequence of requests served by either version: each
    counter rises by exactly the number of requests of its kind, no counter
    ever goes down, and counters only grow from one point of a run to a
    later one.

The model is based on what the code does:

- A body without `content` makes the read of `request.json['content']`
  raise `KeyError`. This happens after the counter moved and before any
  insert or update. The model gives `Raised(MissingContent)`; it does not
  treat this as a 400 response.
- A body with `"content": null` reaches the commit. The `nullable=False`
  column of `Note` (app/models.py:6) then rejects it, and the table is
  unchanged. The model gives `Raised(NullContent)`.
- In `main.py` a missing row makes `note.content`, the assignment to
  `note.content`, or `db.session.delete(None)` raise. The model gives
  `Raised(NoSuchNote)`. For PUT, Python evaluates the right-hand side
  `request.json['content']` before it stores the attribute. So a PUT on a
  missing row whose body has no `content` raises `MissingContent`, not
  `NoSuchNote`.
- The router adds HEAD to every rule that lists GET, so `HEAD /note/<id>`
  also reaches `handle_note`. It matches none of the three branches: no
  counter moves, the table is unchanged, and the view returns `None`, which
  the framework refuses. The model gives `Raised(NoResponse)` in both versions.
- The database picks the key of a new row. The only thing the model
  assumes about it is that no row already has that key. The POST methods
  choose it with `:|`. The `Create` function takes it as an argument with
  that precondition.

## Model

| member | source | states |
|---|---|---|
| `Notes.Find` | app/routes.py:27 | the lookup of a row by primary key finds a row exactly when the id is a key; the row it finds has that id and that key's content |
| `Notes.CounterOf` | app/routes.py:28-41 | GET is counted on `get_counter`, PUT on `put_counter` and DELETE on `delete_counter`, each exactly when it is that verb, never on `post_counter`; HEAD is counted on none |
| `Notes.ContentFailure` | app/routes.py:19-22 | a body without `content` fails with the missing-key error, and a `null` content fails at the commit; since the content is not text, these are the only two cases, so a missing row or an absent response is never the reason |
| `Notes.Counters.Bump` | app/routes.py:18 | `add(1)` raises the chosen counter by exactly one and leaves the other three as they were |
| `Notes.BumpedOnlyCounts` | app/routes.py:18-41 | one `add(1)` raises the total request count by exactly one and lowers no counter |
| `Notes.Service.constructor` | app/routes.py:11-14 | a new process starts with all four counters at zero, over whatever rows the database file already holds |
| `Notes.Create` | app/routes.py:16-23 | POST moves only `post_counter` by one. With text content it adds exactly one row, under a key not used before, holding that content; every earlier row is kept, and the answer is 201 with the new key. Without usable content the table is unchanged and the request raises |
| `Routes.Handle` | app/routes.py:25-46 | GET, PUT and DELETE each move only their own counter, by one, even when the answer is 404; HEAD moves no counter, changes nothing and raises because no response is returned. A missing row gives 404 with `{'id': id}` and an unchanged table for GET, PUT and DELETE. GET gives 200 and the stored content, table unchanged. PUT with text replaces only that row's content, keeps every key, and answers 200 with the id; PUT without usable content changes nothing and raises. DELETE removes exactly that key, keeps the other rows, and answers 204 with an empty body |
| `Routes.CreateNote` | app/routes.py:16-23 | there is an unused key under which the new counters, table and answer are exactly those `Notes.Create` gives from the old state |
| `Routes.HandleNote` | app/routes.py:25-46 | the new counters, table and answer are exactly those `Routes.Handle` gives from the old state |
| `Routes.PostThenGet` | app/routes.py:16-32 | POST of some content answers 201 with the new key, and a GET on that key then answers 200 with the same content |
| `Routes.PutThenGet` | app/routes.py:28-39 | after PUT on a stored row, GET on it answers 200 with the new content, and GET on any other id answers as it did before |
| `Routes.DeleteThenGet` | app/routes.py:28-46 | after DELETE of a stored row, GET on that id answers 404 |
| `Routes.ScriptedSession` | app/routes.py:16-46 | POST "Sample Text 1", GET, PUT "Updated", GET, DELETE, GET answer 201, 200 with the posted text, 200, 200 with "Updated", 204 and 404, and the table ends as it began |
| `MainApp.MissingRowFailure` | main.py:45-58 | with no row, only a PUT whose body lacks `content` fails on the body, and only HEAD fails for returning no response; every other request fails on the missing row, and none fails at the commit |
| `MainApp.Handle` | main.py:43-58 | GET, PUT and DELETE each move only their own counter, by one; HEAD moves no counter, changes nothing and raises because no response is returned. On a stored row it reads, replaces or deletes as the guarded version does, with the same answers. On a missing row the table is unchanged and the request raises; it never answers 404 |
| `MainApp.CreateNote` | main.py:33-41 | there is an unused key under which the new counters, table and answer are exactly those `Notes.Create` gives from the old state |
| `MainApp.HandleNote` | main.py:43-58 | the new counters, table and answer are exactly those `MainApp.Handle` gives from the old state |
| `MainApp.PostThenGet` | main.py:33-48 | POST of some content answers 201 with the new key, and a GET on that key then answers 200 with the same content |
| `MainApp.DeleteThenGet` | main.py:54-58 | after DELETE of a stored row, a GET or a second DELETE on that id raises a missing-row failure, leaves the table alone, and still moves its own counter |
| `Versions.SameOnStoredRows` | main.py:43-58 | on an id that has a row, both versions of `handle_note` give the same state and answer for every verb and body |
| `Versions.DifferOnMissingRows` | app/routes.py:27-43 | on an id without a row, both versions leave the same state; for GET, PUT and DELETE the blueprint answers 404 with the id and the standalone handler raises, and for HEAD both give the same outcome |
| `Versions.Serve` | main.py:33-58 | serving any one POST, GET, PUT or DELETE request, by either version, moves exactly the counter of that request's kind by one; a HEAD request moves none |
| `Versions.RunCounts` | app/routes.py:18-41 | after any sequence of requests, each counter has risen by exactly the number of requests of its kind |
| `Versions.RunTotal` | main.py:35-55 | after any sequence of requests, the four counters together have risen by the number of POST, GET, PUT and DELETE requests among them |
| `Versions.RunNoneDecreased` | app/routes.py:29-41 | no sequence of requests lowers any counter |
| `Versions.PrefixNoneDecreased` | main.py:17-20 | the counters after any prefix of a sequence of requests are at or below those after the whole sequence, so the counters never decrease over the process lifetime |

## Left out

- The meter provider, the OTLP exporter and the periodic export reader (app/otel.py:10-15, main.py:10-15). They are library set-up, driven by a timer. The counters here are the values the handlers add to, not what reaches the collector.
- Reading `OTEL_ENDPOINT` with its default (app/otel.py:11): environment I/O with no effect on the handlers.
- The app factory, blueprint registration, `db.create_all`, the SQLite URI and `app.run` (app/__init__.py:8-22, main.py:22-31, 60-61). The file that already exists is the constructor's `stored` argument.
- How SQLite picks a new primary key. The model only knows that no row has it, and promises no order among keys.
- The `String(500)` length of `content`: SQLite does not enforce it, so content of any length is stored.
- JSON parsing beyond "`content` is missing, `null`, or a string". That includes a body that is not JSON at all, and non-string `content` values.
- Turning the `<id>` path segment into an integer key. The id is taken as an `int`. The 404 body of the blueprint echoes it as that int.
- The status code Flask sends when a handler raises, and the rollback the session does at teardown. A raised request is the outcome `Raised(failure)` with the table unchanged.
- The `print` in the standalone POST handler (main.py:36), and thread safety of the counters under a multi-threaded server. Requests are served one at a time.
- Methods other than GET, PUT, DELETE and HEAD on `/note/<id>`, and anything but POST on `/note`: the router answers those itself and never calls a handler.
